/**
 * Resync: what a room's snapshot and the events held for it add up to (client/src/state/roomReducer.ts, line 208:
 * "each is idempotent against a snapshot that may already include it").
 *
 * A history is everything a room announced, in order. A client that comes back gets a snapshot and every event from
 * some point on: those that can be held and come before the snapshot are replayed on it; the rest are applied as they
 * come. What the snapshot has of each person, message and entry is how they stood at some later point, each its own.
 */
module Resync {
  import opened Jobs
  import opened Options
  import opened Sequences
  import opened Sorting
  import opened RoomReducer
  import opened JobReplay
  import opened ReplayLists
  import opened EntryReplay
  import opened RoomLists
  import opened PeopleOrder
  import opened ListOrder
  import opened ChatWindow
  import opened FeedOrder

  /** The event carries an item with all its fields. */
  predicate CarriesItem(event: ServerEvent) { event.MediaUploaded? || event.MediaUpdated? }

  /** What a room announces while it exists. */
  predicate Announced(event: ServerEvent) { !event.RoomSnapshot? && !event.RoomDeleted? }

  ghost predicate AllAnnounced(events: seq<ServerEvent>, roomId: string) {
    forall i | 0 <= i < |events| :: events[i].roomId == roomId && Announced(events[i])
  }

  /**
   * What a room may announce: its own events only, ids never reused, each message posted once, each item's life in
   * order (`Orderly`), and an item's upload time never changed. In which order things made at the same time are
   * announced is left open.
   */
  ghost predicate WellFormed(h: seq<ServerEvent>, roomId: string) {
    && AllAnnounced(h, roomId)
    && ChatOrderly(h)
    && FeedOrderly(h)
    && (forall i, j | 0 <= i < j < |h| && CarriesItem(h[i]) && CarriesItem(h[j])
        && h[i].mediaItem.id == h[j].mediaItem.id ::
          h[i].mediaItem.createdAt == h[j].mediaItem.createdAt)
  }

  /** Whoever is removed while in the room is announced, later, to have left. */
  ghost predicate RemovalsFollowed(h: seq<ServerEvent>) {
    forall i | 0 <= i < |h| && h[i].ParticipantRemoved? && h[i].participantId in RosterRun(map[], h[..i]) ::
      exists j :: i < j < |h| && h[j].ParticipantLeft? && h[j].participantId == h[i].participantId
  }

  /** How much of what happens to each person, message and entry a snapshot's three queries see. */
  datatype Positions = Positions(people: string -> nat, chat: string -> nat, media: string -> nat)

  ghost predicate Between(at: Positions, low: nat, high: nat) {
    && (forall id :: low <= at.people(id) <= high)
    && (forall id :: low <= at.chat(id) <= high)
    && (forall x :: low <= at.media(x) <= high)
  }

  /** The room as the server knows it at these positions, with the newest `limit` messages of its chat. */
  ghost predicate SnapshotOf(snapshot: ServerEvent, roomId: string, h: seq<ServerEvent>, at: Positions, limit: nat)
    requires Between(at, 0, |h|)
  {
    && snapshot.RoomSnapshot? && snapshot.roomId == roomId
    && UniqueParticipants(snapshot.participants)
    && (forall id :: At(RosterOf(snapshot.participants), id) == At(RosterRun(map[], h[..at.people(id)]), id))
    && IsNewest(snapshot.chatHistory, limit, h, at.chat)
    && Distinct(MediaIds(snapshot.media))
    && (forall x :: FindEntry(snapshot.media, x) == FindEntry(MediaRun([], h[..at.media(x)]), x))
  }

  /** The client shows the room as someone who saw all of `h` happen would. */
  ghost predicate Shows(state: RoomState, roomId: string, h: seq<ServerEvent>) {
    ShowsPeople(state, roomId, h) && state.chat == ChatRun([], h) && state.media == MediaRun([], h)
  }

  ghost predicate ShowsPeople(state: RoomState, roomId: string, h: seq<ServerEvent>) {
    && IsCurrentRoom(state, roomId)
    && UniqueParticipants(state.participants) && RosterOf(state.participants) == RosterRun(map[], h)
  }

  /** It shows every entry as it is, and no other, in whatever order. */
  ghost predicate ShowsFeed(media: seq<Entry>, h: seq<ServerEvent>) {
    Distinct(MediaIds(media)) && forall x :: FindEntry(media, x) == FindEntry(MediaRun([], h), x)
  }

  /** It shows these messages of the room as they are, and no other, in whatever order. */
  ghost predicate ShowsMessages(chat: seq<ChatMessage>, h: seq<ServerEvent>, which: iset<string>) {
    && Distinct(ChatIds(chat))
    && forall id :: FindMessage(chat, id) == if id in which then FindMessage(ChatRun([], h), id) else None
  }

  // ---- histories in pieces -----------------------------------------------------------------

  lemma {:induction false} RunsAppend(roster: Roster, chat: seq<ChatMessage>, media: seq<Entry>, p: seq<ServerEvent>,
                                      q: seq<ServerEvent>)
    ensures RosterRun(roster, p + q) == RosterRun(RosterRun(roster, p), q)
    ensures ChatRun(chat, p + q) == ChatRun(ChatRun(chat, p), q)
    ensures MediaRun(media, p + q) == MediaRun(MediaRun(media, p), q)
    decreases p
  {
    if p == [] {
      assert p + q == q;
    } else {
      TailOfAppend(p, q);
      RunsAppend(RosterStep(roster, p[0]), ChatAfter(chat, p[0]), MediaAfter(media, p[0]), p[1..], q);
    }
  }

  function LifeRun(life: Life, events: seq<ServerEvent>, x: string): Life
    decreases events
  {
    if events == [] then life else LifeRun(LifeStep(life, events[0], x), events[1..], x)
  }

  lemma {:induction false} OrderlySplit(life: Life, p: seq<ServerEvent>, q: seq<ServerEvent>, x: string)
    requires Orderly(life, p + q, x)
    ensures Orderly(life, p, x) && Orderly(LifeRun(life, p, x), q, x)
    ensures Shown(LifeRun(life, p, x)) == EntryRun(Shown(life), p, x)
    decreases p
  {
    if p == [] {
      assert p + q == q;
    } else {
      assert (p + q)[1..] == p[1..] + q;
      LifeIsShown(life, p[0], x);
      OrderlySplit(LifeStep(life, p[0], x), p[1..], q, x);
    }
  }

  /** The heart of it: from any point to a later one, replayed on what is there at the later one, changes nothing. */
  lemma {:induction false} ReplayChangesNothing(h: seq<ServerEvent>, roomId: string, s: nat, k: nat)
    requires WellFormed(h, roomId) && s <= k <= |h|
    ensures RosterRun(RosterRun(map[], h[..k]), h[s..k]) == RosterRun(map[], h[..k])
    ensures ChatRun(ChatRun([], h[..k]), h[s..k]) == ChatRun([], h[..k])
    ensures MediaRun(MediaRun([], h[..k]), h[s..k]) == MediaRun([], h[..k])
  {
    var before, es := h[..s], h[s..k];
    assert h[..k] == before + es;
    RunsAppend(map[], [], [], before, es);
    ReplayedRoster(RosterRun(map[], before), es);
    DistinctFromEmpty(before);
    NoReusePart(h, s, k);
    ReplayedChat(ChatRun([], before), es);
    MediaReplayed(h, roomId, s, k);
  }

  lemma {:induction false} MediaReplayed(h: seq<ServerEvent>, roomId: string, s: nat, k: nat)
    requires WellFormed(h, roomId) && s <= k <= |h|
    ensures var once := MediaRun(MediaRun([], h[..s]), h[s..k]);
            MediaRun(once, h[s..k]) == once
  {
    var before, es := h[..s], h[s..k];
    var lives := (x: string) => LifeRun(NotYet, before, x);
    forall x ensures Orderly(lives(x), es, x) && Shown(lives(x)) == FindEntry(MediaRun([], before), x) {
      LifeAt(h, roomId, s, k, x);
    }
    DistinctFromEmpty(before);
    ReplayedMedia(MediaRun([], before), es, lives);
  }

  lemma {:induction false} LifeAt(h: seq<ServerEvent>, roomId: string, s: nat, k: nat, x: string)
    requires WellFormed(h, roomId) && s <= k <= |h|
    ensures Orderly(LifeRun(NotYet, h[..s], x), h[s..k], x)
    ensures Shown(LifeRun(NotYet, h[..s], x)) == FindEntry(MediaRun([], h[..s]), x)
  {
    assert Orderly(NotYet, h, x);
    assert h == h[..s] + (h[s..k] + h[k..]);
    OrderlySplit(NotYet, h[..s], h[s..k] + h[k..], x);
    OrderlySplit(LifeRun(NotYet, h[..s], x), h[s..k], h[k..], x);
    MediaRunFacts([], h[..s], x);
  }

  lemma {:induction false} DistinctFromEmpty(events: seq<ServerEvent>)
    ensures Distinct(ChatIds(ChatRun([], events))) && Distinct(MediaIds(MediaRun([], events)))
  {
    ChatRunFacts([], events, "");
    MediaRunFacts([], events, "");
    IdsStayDistinct(false, [], ChatIdEvents(events));
    IdsStayDistinct(true, [], MediaIdEvents(events));
  }

  lemma {:induction false} NoReusePart(h: seq<ServerEvent>, s: nat, k: nat)
    requires NoReuse(ChatIdEvents(h)) && s <= k <= |h|
    ensures NoReuse(ChatIdEvents(h[s..k]))
  {
    var part := ChatIdEvents(h[s..k]);
    forall i, j | 0 <= i < j < |part| && part[i].Remove? && part[j].Add? ensures part[i].id != part[j].id {
      assert part[i] == ChatIdEvents(h)[s + i] && part[j] == ChatIdEvents(h)[s + j];
    }
  }

  // ---- the snapshot's lists, sorted ----------------------------------------------------------

  /** What an entry shows of its item was carried by an event about it. */
  lemma {:induction false} ItemCarried(v: Option<Entry>, events: seq<ServerEvent>, x: string)
    requires EntryRun(v, events, x).Some? && (v.Some? ==> v.value.mediaItem.id == x)
    ensures EntryRun(v, events, x).value.mediaItem.id == x
    ensures (v.Some? && EntryRun(v, events, x).value.mediaItem == v.value.mediaItem)
         || exists i :: 0 <= i < |events| && CarriesItem(events[i])
              && events[i].mediaItem == EntryRun(v, events, x).value.mediaItem
    decreases events
  {
    if events != [] {
      var next, rest := EntryStep(v, events[0], x), events[1..];
      ItemCarried(next, rest, x);
      var item := EntryRun(v, events, x).value.mediaItem;
      if i :| 0 <= i < |rest| && CarriesItem(rest[i]) && rest[i].mediaItem == item {
        assert events[i + 1] == rest[i];
      } else if v.None? || next.value.mediaItem != v.value.mediaItem {
        assert CarriesItem(events[0]) && events[0].mediaItem == item;
      }
    }
  }

  lemma {:induction false} FoundAmong(media: seq<Entry>, e: Entry)
    requires e in media && Distinct(MediaIds(media))
    ensures FindEntry(media, e.mediaItem.id) == Some(e)
  {
    var i :| 0 <= i < |media| && media[i] == e;
    FindEntryAt(media, i);
  }

  /** A list with each entry as it was at some point is of the history's entries. */
  lemma {:induction false} SnapshotOfFeed(h: seq<ServerEvent>, roomId: string, at: Positions, media: seq<Entry>)
    requires WellFormed(h, roomId) && Between(at, 0, |h|) && Distinct(MediaIds(media))
    requires forall x :: FindEntry(media, x) == FindEntry(MediaRun([], h[..at.media(x)]), x)
    ensures OfFeed(media, h)
  {
    forall e, i | e in media && 0 <= i < |h| && Uploads(h[i], e.mediaItem.id)
      ensures h[i].mediaItem.createdAt == e.mediaItem.createdAt
    {
      var x := e.mediaItem.id;
      var k := at.media(x);
      FoundAmong(media, e);
      MediaRunFacts([], h[..k], x);
      ItemCarried(None, h[..k], x);
      var j :| 0 <= j < |h[..k]| && CarriesItem(h[..k][j]) && h[..k][j].mediaItem == e.mediaItem;
      assert h[j] == h[..k][j] && CarriesItem(h[i]);
    }
  }

  lemma {:induction false} SnapshotOfChat(h: seq<ServerEvent>, at: Positions, chat: seq<ChatMessage>, limit: nat)
    requires ChatOrderly(h) && Between(at, 0, |h|) && IsNewest(chat, limit, h, at.chat)
    ensures OfHistory(chat, h)
  {
    forall m | m in chat ensures PostedAs(h, m) {
      var k := at.chat(m.id);
      ChatRunFacts([], h[..k], m.id);
      MessageFrom(None, h[..k], m.id);
      var idx := PicksAll(h, k);
      PickedAs(h[..k], h, idx, m);
    }
  }

  /** A list's entries do not depend on its order. */
  lemma {:induction false} SameEntries(a: seq<Entry>, b: seq<Entry>)
    requires multiset(a) == multiset(b) && Distinct(MediaIds(a))
    ensures Distinct(MediaIds(b)) && forall x :: FindEntry(b, x) == FindEntry(a, x)
  {
    SameMembers(a, b);
    IdsOfMedia(a, b);
    forall x ensures FindEntry(b, x) == FindEntry(a, x) {
      EntryFound(a, x);
      EntryFound(b, x);
      HasStill(b, a, x);
      if HasEntry(a, x) {
        var i :| 0 <= i < |a| && a[i].mediaItem.id == x;
        FoundAmong(a, a[i]);
        FoundAmong(b, a[i]);
      }
    }
  }

  lemma {:induction false} HasStill(a: seq<Entry>, b: seq<Entry>, x: string)
    requires forall e :: e in a ==> e in b
    ensures HasEntry(a, x) ==> HasEntry(b, x)
  {
    if HasEntry(a, x) {
      var i :| 0 <= i < |a| && a[i].mediaItem.id == x;
      assert a[i] in b;
    }
  }

  lemma {:induction false} IdsOfMedia(a: seq<Entry>, b: seq<Entry>)
    requires multiset(a) == multiset(b) && Distinct(MediaIds(a))
    ensures Distinct(MediaIds(b))
  {
    EntriesDiffer(a);
    OnceEach(a);
    forall i, j | 0 <= i < j < |b| ensures MediaIds(b)[i] != MediaIds(b)[j] {
      TwiceInList(b, i, j);
      assert b[i] in multiset(b) && b[j] in multiset(b);
      assert b[i] in a && b[j] in a;
      if b[i].mediaItem.id == b[j].mediaItem.id {
        FoundAmong(a, b[i]);
        FoundAmong(a, b[j]);
      }
    }
  }

  lemma {:induction false} EntriesDiffer(media: seq<Entry>)
    requires Distinct(MediaIds(media))
    ensures Distinct(media)
  {
    forall i, j | 0 <= i < j < |media| ensures media[i] != media[j] {
      assert MediaIds(media)[i] != MediaIds(media)[j];
    }
  }

  lemma {:induction false} TwiceInList<T>(xs: seq<T>, i: nat, j: nat)
    requires i < j < |xs|
    ensures xs[i] == xs[j] ==> multiset(xs)[xs[i]] >= 2
  {
    SplitAround(xs, 0, i, |xs|);
    assert xs == xs[..i] + ([xs[i]] + xs[i + 1..]);
    assert xs[j] == xs[i + 1..][j - i - 1];
    assert xs[j] in multiset(xs[i + 1..]);
  }

  /** The lists the client starts from: the chat as it came, the feed newest first. */
  lemma {:induction false} SnapshotSorted(h: seq<ServerEvent>, roomId: string, at: Positions, limit: nat,
                                          snapshot: ServerEvent)
    requires WellFormed(h, roomId) && Between(at, 0, |h|) && SnapshotOf(snapshot, roomId, h, at, limit)
    ensures Sort(OlderMessage(), snapshot.chatHistory) == snapshot.chatHistory && OfHistory(snapshot.chatHistory, h)
    ensures var media := Sort(NewerEntry(), snapshot.media);
            && NewestFirst(media) && OfFeed(media, h)
            && forall x :: FindEntry(media, x) == FindEntry(MediaRun([], h[..at.media(x)]), x)
  {
    var media := Sort(NewerEntry(), snapshot.media);
    SortOfOrdered(OlderMessage(), snapshot.chatHistory);
    SnapshotOfChat(h, at, snapshot.chatHistory, limit);
    SortInOrder(NewerEntry(), snapshot.media);
    forall i, j | 0 <= i < j < |media| ensures media[i].mediaItem.createdAt >= media[j].mediaItem.createdAt {
      assert !NewerEntry()(media[j], media[i]);
    }
    SameEntries(snapshot.media, media);
    SnapshotOfFeed(h, roomId, at, media);
  }

  // ---- the client ----------------------------------------------------------------------------

  /** None of these removes the client itself. */
  predicate SparesMe(me: Option<Participant>, events: seq<ServerEvent>) {
    forall i | 0 <= i < |events| && events[i].ParticipantRemoved? && me.Some? :: events[i].participantId != me.value.id
  }

  lemma {:induction false} ReplayRuns(state: RoomState, roomId: string, events: seq<ServerEvent>)
    requires IsCurrentRoom(state, roomId) && AllAnnounced(events, roomId) && SparesMe(state.me, events)
    ensures var after := Replay(state, events);
            && IsCurrentRoom(after, roomId)
            && after.participants == PeopleRun(state.participants, events)
            && after.chat == ChatRun(state.chat, events)
            && after.media == MediaRun(state.media, events)
    ensures Replay(state, events).me == state.me
    decreases events
  {
    if events != [] {
      var next := ApplyToRoom(state, events[0]);
      assert events[0].roomId == roomId && Announced(events[0]);
      assert next.participants == PeopleAfter(state.participants, events[0]);
      ReplayRuns(next, roomId, events[1..]);
    }
  }

  lemma {:induction false} RunAppend(state: RoomState, p: seq<RoomAction>, q: seq<RoomAction>)
    ensures Run(state, p + q) == Run(Run(state, p), q)
    decreases p
  {
    if p == [] {
      assert p + q == q;
    } else {
      RunAppend(Reduce(state, p[0]), p[1..], q);
      assert (p + q)[1..] == p[1..] + q;
    }
  }

  /** The events that are held, of those that come. */
  function Held(events: seq<ServerEvent>): seq<ServerEvent> {
    if events == [] then [] else (if HeldUntilSnapshot(events[0]) then [events[0]] else []) + Held(events[1..])
  }

  lemma {:induction false} HeldAppend(p: seq<ServerEvent>, q: seq<ServerEvent>)
    ensures Held(p + q) == Held(p) + Held(q)
    decreases p
  {
    if p == [] {
      assert p + q == q;
    } else {
      TailOfAppend(p, q);
      HeldAppend(p[1..], q);
      Assoc(if HeldUntilSnapshot(p[0]) then [p[0]] else [], Held(p[1..]), Held(q));
    }
  }

  lemma {:induction false} HeldAreHeld(events: seq<ServerEvent>, roomId: string)
    requires AllAnnounced(events, roomId)
    ensures AllHeldFor(Held(events), roomId)
  {
    if events != [] {
      HeldAreHeld(events[1..], roomId);
    }
  }

  /** To the chat and the feed the others make no difference. */
  lemma {:induction false} HeldRuns(chat: seq<ChatMessage>, media: seq<Entry>, events: seq<ServerEvent>, roomId: string)
    requires AllAnnounced(events, roomId)
    ensures ChatRun(chat, Held(events)) == ChatRun(chat, events)
    ensures MediaRun(media, Held(events)) == MediaRun(media, events)
    decreases events
  {
    if events != [] {
      assert events[0].roomId == roomId && Announced(events[0]);
      if HeldUntilSnapshot(events[0]) {
        assert Held(events)[1..] == Held(events[1..]);
      } else {
        assert Held(events) == Held(events[1..]);
      }
      HeldRuns(ChatAfter(chat, events[0]), MediaAfter(media, events[0]), events[1..], roomId);
    }
  }

  /** As many as find room to be held. */
  function Taken(events: seq<ServerEvent>): seq<ServerEvent> {
    if |events| <= MAX_HELD then events else events[..MAX_HELD]
  }

  lemma {:induction false} TakenFull(held: seq<ServerEvent>, more: seq<ServerEvent>)
    requires |held| == MAX_HELD
    ensures Taken(held + more) == held
  {
    assert (held + more)[..MAX_HELD] == held;
    assert more == [] ==> held + more == held;
  }

  /** No more than MAX_HELD events are ever held. */
  lemma {:induction false} HeldStaysBounded(state: RoomState, action: RoomAction)
    requires |state.heldEvents| <= MAX_HELD
    ensures |Reduce(state, action).heldEvents| <= MAX_HELD
  {
    if action.FromServer? && action.event.RoomSnapshot? {
      ReplayHoldsNothing(ApplySnapshot(state.(heldEvents := []), action.event),
                         OfRoom(state.heldEvents, action.event.roomId));
    }
  }

  lemma {:induction false} ReplayHoldsNothing(state: RoomState, events: seq<ServerEvent>)
    ensures Replay(state, events).heldEvents == state.heldEvents
    decreases events
  {
    if events != [] {
      ReplayHoldsNothing(ApplyToRoom(state, events[0]), events[1..]);
    }
  }

  /** Before the snapshot events of the room are held, in order, as long as there is room; a removal shows at once. */
  lemma {:induction false} EventsAreHeld(state: RoomState, roomId: string, events: seq<ServerEvent>)
    requires !state.synced && state.activeRoomId == Some(roomId) && |state.heldEvents| <= MAX_HELD
    requires AllAnnounced(events, roomId) && SparesMe(state.me, events)
    ensures var after := Run(state, Arriving(events));
            !after.synced && after.activeRoomId == Some(roomId) && after.me == state.me
            && after.heldEvents == Taken(state.heldEvents + Held(events))
    decreases events
  {
    if events == [] {
      assert state.heldEvents + Held(events) == state.heldEvents;
    } else {
      var next := Reduce(state, FromServer(events[0]));
      assert events[0].roomId == roomId && Announced(events[0]);
      assert Arriving(events)[1..] == Arriving(events[1..]);
      if !HeldUntilSnapshot(events[0]) {
        assert Held(events) == Held(events[1..]);
      } else if |state.heldEvents| < MAX_HELD {
        assert next == state.(heldEvents := state.heldEvents + [events[0]]);
        Assoc(state.heldEvents, [events[0]], Held(events[1..]));
      } else {
        assert next == state;
        TakenFull(state.heldEvents, Held(events));
        TakenFull(state.heldEvents, Held(events[1..]));
      }
      EventsAreHeld(next, roomId, events[1..]);
    }
  }

  lemma {:induction false} LiveIsReplay(state: RoomState, roomId: string, events: seq<ServerEvent>)
    requires IsCurrentRoom(state, roomId) && AllAnnounced(events, roomId)
    ensures Run(state, Arriving(events)) == Replay(state, events)
    decreases events
  {
    if events != [] {
      assert events[0].roomId == roomId && Announced(events[0]);
      assert Arriving(events)[1..] == Arriving(events[1..]);
      LiveIsReplay(ApplyToRoom(state, events[0]), roomId, events[1..]);
    }
  }

  lemma {:induction false} AllOfRoom(events: seq<ServerEvent>, roomId: string)
    requires forall i | 0 <= i < |events| :: events[i].roomId == roomId
    ensures OfRoom(events, roomId) == events
  {
    if events != [] {
      AllOfRoom(events[1..], roomId);
    }
  }

  /** A client there from the start, with nothing missed. */
  lemma {:induction false} LiveShows(state: RoomState, roomId: string, h: seq<ServerEvent>)
    requires WellFormed(h, roomId) && Shows(state, roomId, []) && SparesMe(state.me, h)
    ensures Shows(Run(state, Arriving(h)), roomId, h)
  {
    LiveIsReplay(state, roomId, h);
    ReplayRuns(state, roomId, h);
    PeopleRunFacts(state.participants, h);
  }

  // ---- coming back -----------------------------------------------------------------------------

  /** What is held for the room from before it is asked for. */
  function HeldFrom(state: RoomState, roomId: string): seq<ServerEvent> {
    if state.activeRoomId == Some(roomId) then state.heldEvents else []
  }

  /** The client asks for the room, hears `before`, gets the snapshot, and hears `live`. */
  function Back(state: RoomState, snapshot: ServerEvent, before: seq<ServerEvent>, live: seq<ServerEvent>): RoomState {
    Run(state, [RoomRequested(snapshot.roomId)] + Arriving(before) + [FromServer(snapshot)] + Arriving(live))
  }

  /** Not in the room yet; and everything it hears comes from there, and does not remove it. */
  ghost predicate ComesBack(state: RoomState, snapshot: ServerEvent, before: seq<ServerEvent>, live: seq<ServerEvent>) {
    && snapshot.RoomSnapshot? && !IsCurrentRoom(state, snapshot.roomId) && UniqueParticipants(snapshot.participants)
    && AllHeldFor(HeldFrom(state, snapshot.roomId), snapshot.roomId) && |state.heldEvents| <= MAX_HELD
    && AllAnnounced(before, snapshot.roomId) && AllAnnounced(live, snapshot.roomId)
    && SparesMe(state.me, before) && SparesMe(state.me, live)
  }

  /** What it hears: what was held as long as there was room, and what came after the snapshot. */
  function HeardBack(state: RoomState, roomId: string, before: seq<ServerEvent>,
                     live: seq<ServerEvent>): seq<ServerEvent> {
    Taken(HeldFrom(state, roomId) + Held(before)) + live
  }

  /** All that it hears, and nothing else, is applied to the snapshot's sorted lists. */
  lemma {:induction false} BackIs(state: RoomState, snapshot: ServerEvent, before: seq<ServerEvent>,
                                  live: seq<ServerEvent>)
    requires ComesBack(state, snapshot, before, live)
    ensures var t, heard := Back(state, snapshot, before, live), HeardBack(state, snapshot.roomId, before, live);
            && IsCurrentRoom(t, snapshot.roomId)
            && t.participants == PeopleRun(snapshot.participants, heard)
            && t.chat == ChatRun(Sort(OlderMessage(), snapshot.chatHistory), heard)
            && t.media == MediaRun(Sort(NewerEntry(), snapshot.media), heard)
  {
    var holding := HoldsUntilSnapshot(state, snapshot, before, live);
    HeldAreHeld(before, snapshot.roomId);
    SnapshotThenLive(holding, snapshot, live);
    BareSnapshot(holding, snapshot);
    var bare := ApplySnapshot(holding.(heldEvents := []), snapshot);
    RunsAppend(map[], bare.chat, bare.media, holding.heldEvents, live);
  }

  lemma {:induction false} HoldsUntilSnapshot(state: RoomState, snapshot: ServerEvent, before: seq<ServerEvent>,
                                              live: seq<ServerEvent>)
      returns (holding: RoomState)
    requires ComesBack(state, snapshot, before, live)
    ensures !holding.synced && holding.me == state.me
    ensures holding.heldEvents == Taken(HeldFrom(state, snapshot.roomId) + Held(before))
    ensures Back(state, snapshot, before, live) == Run(Reduce(holding, FromServer(snapshot)), Arriving(live))
  {
    var waiting := Reduce(state, RoomRequested(snapshot.roomId));
    EventsAreHeld(waiting, snapshot.roomId, before);
    holding := Run(waiting, Arriving(before));
    RunInStages(state, RoomRequested(snapshot.roomId), Arriving(before), FromServer(snapshot), Arriving(live));
  }

  lemma {:induction false} SnapshotThenLive(holding: RoomState, snapshot: ServerEvent, live: seq<ServerEvent>)
    requires !holding.synced && snapshot.RoomSnapshot? && AllHeldFor(holding.heldEvents, snapshot.roomId)
    requires AllAnnounced(live, snapshot.roomId) && SparesMe(holding.me, live)
    ensures var t, bare := Run(Reduce(holding, FromServer(snapshot)), Arriving(live)),
            ApplySnapshot(holding.(heldEvents := []), snapshot);
            && IsCurrentRoom(t, snapshot.roomId)
            && t.participants == PeopleRun(snapshot.participants, holding.heldEvents + live)
            && t.chat == ChatRun(ChatRun(bare.chat, holding.heldEvents), live)
            && t.media == MediaRun(MediaRun(bare.media, holding.heldEvents), live)
  {
    var bare := ApplySnapshot(holding.(heldEvents := []), snapshot);
    HeldIsReplayed(holding, snapshot);
    BareSnapshot(holding, snapshot);
    ReplayRuns(bare, snapshot.roomId, holding.heldEvents);
    LiveIsReplay(Replay(bare, holding.heldEvents), snapshot.roomId, live);
    ReplayRuns(Replay(bare, holding.heldEvents), snapshot.roomId, live);
    PeopleAppend(snapshot.participants, holding.heldEvents, live);
  }

  lemma {:induction false} BareSnapshot(holding: RoomState, snapshot: ServerEvent)
    requires snapshot.RoomSnapshot?
    ensures var bare := ApplySnapshot(holding.(heldEvents := []), snapshot);
            && IsCurrentRoom(bare, snapshot.roomId) && bare.participants == snapshot.participants
                 && bare.me == holding.me
            && bare.chat == Sort(OlderMessage(), snapshot.chatHistory)
                 && bare.media == Sort(NewerEntry(), snapshot.media)
  {
    assert OfRoom([], snapshot.roomId) == [];
  }

  lemma {:induction false} PeopleAppend(list: seq<Participant>, p: seq<ServerEvent>, q: seq<ServerEvent>)
    ensures PeopleRun(list, p + q) == PeopleRun(PeopleRun(list, p), q)
    decreases p
  {
    if p == [] {
      assert p + q == q;
    } else {
      TailOfAppend(p, q);
      PeopleAppend(PeopleAfter(list, p[0]), p[1..], q);
    }
  }

  /** To the chat and the feed, what is held and then heard is what came. */
  lemma {:induction false} RunsWithHeld(chat: seq<ChatMessage>, media: seq<Entry>, early: seq<ServerEvent>,
                                        before: seq<ServerEvent>,
                                        live: seq<ServerEvent>, roomId: string)
    requires AllAnnounced(before, roomId)
    ensures ChatRun(chat, early + Held(before) + live) == ChatRun(chat, early + (before + live))
    ensures MediaRun(media, early + Held(before) + live) == MediaRun(media, early + (before + live))
  {
    RunsAppend(map[], chat, media, early + Held(before), live);
    RunsAppend(map[], chat, media, early, Held(before));
    RunsAppend(map[], chat, media, early, before + live);
    RunsAppend(map[], ChatRun(chat, early), MediaRun(media, early), before, live);
    HeldRuns(ChatRun(chat, early), MediaRun(media, early), before, roomId);
  }

  lemma {:induction false} RunInStages(state: RoomState, first: RoomAction, held: seq<RoomAction>, snapshot: RoomAction,
                                       live: seq<RoomAction>)
    ensures Run(state, [first] + held + [snapshot] + live)
         == Run(Reduce(Run(Reduce(state, first), held), snapshot), live)
  {
    RunAppend(state, [first] + held + [snapshot], live);
    RunAppend(state, [first] + held, [snapshot]);
    RunAppend(state, [first], held);
    RunOne(state, first);
    RunOne(Run(Reduce(state, first), held), snapshot);
  }

  lemma {:induction false} RunOne(state: RoomState, action: RoomAction)
    ensures Run(state, [action]) == Reduce(state, action)
  {
    assert [action][1..] == [];
  }

  ghost predicate AllHeldFor(events: seq<ServerEvent>, roomId: string) {
    forall i | 0 <= i < |events| :: events[i].roomId == roomId && HeldUntilSnapshot(events[i])
  }

  /** What was held for the room is replayed on the snapshot, all of it, in order. */
  lemma {:induction false} HeldIsReplayed(holding: RoomState, snapshot: ServerEvent)
    requires !holding.synced && snapshot.RoomSnapshot?
    requires forall i | 0 <= i < |holding.heldEvents| :: holding.heldEvents[i].roomId == snapshot.roomId
    ensures Reduce(holding, FromServer(snapshot))
         == Replay(ApplySnapshot(holding.(heldEvents := []), snapshot), holding.heldEvents)
  {
    AllOfRoom(holding.heldEvents, snapshot.roomId);
  }

  /** With nothing held, the snapshot alone shows what its queries saw. */
  lemma {:induction false} SnapshotShows(state: RoomState, roomId: string, h: seq<ServerEvent>, at: Positions,
                                         limit: nat, snapshot: ServerEvent)
    requires WellFormed(h, roomId) && Between(at, 0, |h|) && SnapshotOf(snapshot, roomId, h, at, limit)
    requires state.heldEvents == []
    ensures var t := ApplySnapshot(state, snapshot);
            && IsCurrentRoom(t, roomId) && UniqueParticipants(t.participants)
            && (forall id :: At(RosterOf(t.participants), id) == At(RosterRun(map[], h[..at.people(id)]), id))
            && IsNewest(t.chat, limit, h, at.chat)
            && NewestFirst(t.media)
            && (forall x :: FindEntry(t.media, x) == FindEntry(MediaRun([], h[..at.media(x)]), x))
  {
    SnapshotSorted(h, roomId, at, limit, snapshot);
    BareSnapshot(state, snapshot);
    assert state.(heldEvents := []) == state;
  }

  // ---- who is there ----------------------------------------------------------------------------

  /** Only a removal is not held; so what is held has the last word unless that is a removal. */
  lemma {:induction false} HeldLastWord(events: seq<ServerEvent>, roomId: string, id: string)
    requires AllAnnounced(events, roomId)
    ensures Mentioned(Held(events), id) ==> Mentioned(events, id)
    ensures LastWord(Held(events), id) == LastWord(events, id)
         || exists i :: 0 <= i < |events| && RemovedAt(events, i, id) && !Mentioned(events[i + 1..], id)
    decreases events
  {
    if events != [] {
      var first, rest := events[0], events[1..];
      HeldLastWord(rest, roomId, id);
      assert first.roomId == roomId && Announced(first);
      assert Held(events) == (if HeldUntilSnapshot(first) then [first] else []) + Held(rest);
      assert [first][1..] == [];
      assert LastWord([first], id) == WordOn(first, id);
      LastWordAppend(if HeldUntilSnapshot(first) then [first] else [], Held(rest), id);
      if i :| 0 <= i < |rest| && RemovedAt(rest, i, id) && !Mentioned(rest[i + 1..], id) {
        assert RemovedAt(events, i + 1, id) && events[i + 2..] == rest[i + 1..];
      } else if !HeldUntilSnapshot(first) && WordOn(first, id).Some? && !Mentioned(rest, id) {
        assert RemovedAt(events, 0, id);
      }
    }
  }

  predicate RemovedAt(events: seq<ServerEvent>, i: nat, id: string) {
    i < |events| && events[i].ParticipantRemoved? && events[i].participantId == id
  }

  /** The roster of a client that holds h[s..m], replays it on the snapshot of h[..k], and hears the rest. */
  function Returned(h: seq<ServerEvent>, early: seq<ServerEvent>, s: nat, m: nat, k: nat): Roster
    requires s <= m <= |h| && k <= |h|
  {
    RosterRun(RosterRun(map[], h[..k]), early + Held(h[s..m]) + h[m..])
  }

  /** What is said of someone after position `s`, as the client hears it. */
  lemma {:induction false} HeardOf(h: seq<ServerEvent>, roomId: string, early: seq<ServerEvent>, s: nat, m: nat,
                                   id: string)
    requires AllAnnounced(h, roomId) && s <= m <= |h|
    ensures LastWord(early + Held(h[s..m]) + h[m..], id)
         == if Mentioned(h[m..], id) then LastWord(h[m..], id)
            else if Mentioned(Held(h[s..m]), id) then LastWord(Held(h[s..m]), id) else LastWord(early, id)
    ensures LastWord(h[s..], id) == if Mentioned(h[m..], id) then LastWord(h[m..], id) else LastWord(h[s..m], id)
  {
    LastWordAppend(early + Held(h[s..m]), h[m..], id);
    LastWordAppend(early, Held(h[s..m]), id);
    SplitFrom(h, s, m);
    LastWordAppend(h[s..m], h[m..], id);
  }

  lemma {:induction false} RosterAt(h: seq<ServerEvent>, s: nat, id: string)
    requires s <= |h|
    ensures At(RosterRun(map[], h), id) == if Mentioned(h[s..], id) then LastWord(h[s..], id).value
              else At(RosterRun(map[], h[..s]), id)
  {
    SplitAt(h, s);
    RunsAppend(map[], [], [], h[..s], h[s..]);
    LastDecides(RosterRun(map[], h[..s]), h[s..], id);
  }

  /** Someone not mentioned from `s` on is as they were at `s`, wherever the snapshot was taken after it. */
  lemma {:induction false} SameSince(h: seq<ServerEvent>, s: nat, k: nat, id: string)
    requires s <= k <= |h| && !Mentioned(h[s..], id)
    ensures At(RosterRun(map[], h[..k]), id) == At(RosterRun(map[], h), id)
  {
    RosterAt(h, s, id);
    SplitFrom(h, s, k);
    LastWordAppend(h[s..k], h[k..], id);
    assert h[..k][..s] == h[..s] && h[..k][s..] == h[s..k];
    RosterAt(h[..k], s, id);
  }

  /** The same of a part of the history. */
  lemma {:induction false} HeldLastWordIn(h: seq<ServerEvent>, roomId: string, s: nat, m: nat, id: string)
    requires AllAnnounced(h, roomId) && s <= m <= |h|
    ensures Mentioned(Held(h[s..m]), id) ==> Mentioned(h[s..m], id)
    ensures LastWord(Held(h[s..m]), id) == LastWord(h[s..m], id)
         || exists i | s <= i < m :: RemovedAt(h, i, id) && !Mentioned(h[i + 1..m], id)
  {
    HeldLastWord(h[s..m], roomId, id);
    if LastWord(Held(h[s..m]), id) != LastWord(h[s..m], id) {
      var i :| 0 <= i < |h[s..m]| && RemovedAt(h[s..m], i, id) && !Mentioned(h[s..m][i + 1..], id);
      SliceFrom(h, s, m, i + 1);
      assert RemovedAt(h, s + i, id);
    }
  }

  /** Unless the last word is a removal, what is held has the last word. */
  lemma {:induction false} HeldUnlessRemoved(h: seq<ServerEvent>, roomId: string, s: nat, m: nat, id: string)
    requires AllAnnounced(h, roomId) && s <= m <= |h| && !Mentioned(h[m..], id)
    requires forall i | s <= i < m && RemovedAt(h, i, id) :: Mentioned(h[i + 1..], id)
    ensures LastWord(Held(h[s..m]), id) == LastWord(h[s..m], id)
  {
    HeldLastWordIn(h, roomId, s, m, id);
    if LastWord(Held(h[s..m]), id) != LastWord(h[s..m], id) {
      var i :| s <= i < m && RemovedAt(h, i, id) && !Mentioned(h[i + 1..m], id);
      SplitFrom(h, i + 1, m);
      LastWordAppend(h[i + 1..m], h[m..], id);
    }
  }

  /**
   * Someone's removal at `i`, while the client waits for its snapshot, is the last that is said of them; and what the
   * client holds from before that has them join, or says nothing of them while the snapshot has them.
   */
  ghost predicate UndoneAt(h: seq<ServerEvent>, s: nat, i: nat, roster: Roster, id: string)
    requires s <= i < |h|
  {
    && RemovedAt(h, i, id) && !Mentioned(h[i + 1..], id)
    && (if Mentioned(Held(h[s..i]), id) then LastWord(Held(h[s..i]), id).value.Some? else id in roster)
  }

  ghost predicate RemovalUndone(h: seq<ServerEvent>, s: nat, m: nat, roster: Roster, id: string)
    requires s <= m <= |h|
  {
    exists i | s <= i < m :: UndoneAt(h, s, i, roster, id)
  }

  /** Removals with or without departures: someone is shown otherwise than they are exactly if a removal is undone. */
  lemma {:induction false} UndoneRosterIff(h: seq<ServerEvent>, roomId: string, s: nat, m: nat, k: nat, id: string)
    requires AllAnnounced(h, roomId) && s <= m <= |h| && s <= k <= |h|
    ensures At(Returned(h, [], s, m, k), id) != At(RosterRun(map[], h), id) <==>
              RemovalUndone(h, s, m, RosterRun(map[], h[..k]), id)
  {
    var roster := RosterRun(map[], h[..k]);
    if i :| s <= i < m && RemovedAt(h, i, id) && !Mentioned(h[i + 1..], id) {
      OneUndone(h, s, m, i, roster, id);
      RemovedShown(h, roomId, s, m, k, i, id);
    } else {
      NobodyUndone(h, roomId, s, m, k, id);
      assert !RemovalUndone(h, s, m, roster, id);
    }
  }

  lemma {:induction false} NobodyUndone(h: seq<ServerEvent>, roomId: string, s: nat, m: nat, k: nat, id: string)
    requires AllAnnounced(h, roomId) && s <= m <= |h| && s <= k <= |h|
    requires forall i | s <= i < m && RemovedAt(h, i, id) :: Mentioned(h[i + 1..], id)
    ensures At(Returned(h, [], s, m, k), id) == At(RosterRun(map[], h), id)
  {
    LastDecides(RosterRun(map[], h[..k]), [] + Held(h[s..m]) + h[m..], id);
    HeardOf(h, roomId, [], s, m, id);
    RosterAt(h, s, id);
    if !Mentioned(h[m..], id) {
      HeldUnlessRemoved(h, roomId, s, m, id);
    }
    if !Mentioned(h[s..], id) {
      SameSince(h, s, k, id);
    }
  }

  lemma {:induction false} RemovedShown(h: seq<ServerEvent>, roomId: string, s: nat, m: nat, k: nat, i: nat, id: string)
    requires AllAnnounced(h, roomId) && s <= i < m <= |h| && s <= k <= |h| && RemovedAt(h, i, id)
    requires !Mentioned(h[i + 1..], id)
    ensures At(RosterRun(map[], h), id) == None
    ensures At(Returned(h, [], s, m, k), id)
         == if Mentioned(Held(h[s..i]), id) then LastWord(Held(h[s..i]), id).value else At(RosterRun(map[], h[..k]), id)
  {
    RemovedLast(h, roomId, s, m, i, id);
    HeardOf(h, roomId, [], s, m, id);
    RosterAt(h, s, id);
    LastDecides(RosterRun(map[], h[..k]), [] + Held(h[s..m]) + h[m..], id);
  }

  /** The last word is a removal at `i`: then the client goes by what it held before that. */
  lemma {:induction false} RemovedLast(h: seq<ServerEvent>, roomId: string, s: nat, m: nat, i: nat, id: string)
    requires AllAnnounced(h, roomId) && s <= i < m <= |h| && RemovedAt(h, i, id) && !Mentioned(h[i + 1..], id)
    ensures !Mentioned(h[m..], id) && LastWord(h[s..m], id) == Some(None)
    ensures LastWord(Held(h[s..m]), id) == LastWord(Held(h[s..i]), id)
  {
    SplitFrom(h, i + 1, m);
    LastWordAppend(h[i + 1..m], h[m..], id);
    SplitAround(h, s, i, m);
    RemovalIsLastWord(h[s..i], h[i], h[i + 1..m], id);
    RemovalIsNotHeld(h[s..i], h[i], h[i + 1..m], roomId, id);
  }

  lemma {:induction false} RemovalIsLastWord(before: seq<ServerEvent>, e: ServerEvent, after: seq<ServerEvent>,
                                             id: string)
    requires WordOn(e, id).Some? && !Mentioned(after, id)
    ensures LastWord(before + ([e] + after), id) == WordOn(e, id)
  {
    assert [e][1..] == [] && LastWord([e], id) == WordOn(e, id);
    LastWordAppend([e], after, id);
    LastWordAppend(before, [e] + after, id);
  }

  lemma {:induction false} RemovalIsNotHeld(before: seq<ServerEvent>, e: ServerEvent, after: seq<ServerEvent>,
                                            roomId: string, id: string)
    requires Held([e]) == [] && AllAnnounced(after, roomId) && !Mentioned(after, id)
    ensures LastWord(Held(before + ([e] + after)), id) == LastWord(Held(before), id)
  {
    HeldAppend(before, [e] + after);
    HeldAppend([e], after);
    HeldLastWord(after, roomId, id);
    assert [] + Held(after) == Held(after);
    LastWordAppend(Held(before), Held(after), id);
  }

  lemma {:induction false} OneUndone(h: seq<ServerEvent>, s: nat, m: nat, i: nat, roster: Roster, id: string)
    requires s <= i < m <= |h| && RemovedAt(h, i, id) && !Mentioned(h[i + 1..], id)
    ensures RemovalUndone(h, s, m, roster, id) <==>
              if Mentioned(Held(h[s..i]), id) then LastWord(Held(h[s..i]), id).value.Some? else id in roster
  {
    if j :| s <= j < m && UndoneAt(h, s, j, roster, id) {
      OneLast(h, i, j, id);
      OneLast(h, j, i, id);
    }
    assert UndoneAt(h, s, i, roster, id) <==>
      if Mentioned(Held(h[s..i]), id) then LastWord(Held(h[s..i]), id).value.Some? else id in roster;
  }

  lemma {:induction false} OneLast(h: seq<ServerEvent>, i: nat, j: nat, id: string)
    requires i < |h| && j < |h| && !Mentioned(h[i + 1..], id) && WordOn(h[j], id).Some?
    ensures j <= i
  {
    if i < j {
      assert h[i + 1..][j - i - 1] == h[j];
      SaidIsMentioned(h[i + 1..], id, j - i - 1);
    }
  }

  /** What is held of someone: the last of it, after which there are only removals. */
  lemma {:induction false} LastHeld(events: seq<ServerEvent>, roomId: string, id: string) returns (q: nat)
    requires AllAnnounced(events, roomId)
    ensures q <= |events| && (forall r | q <= r < |events| && WordOn(events[r], id).Some? :: RemovedAt(events, r, id))
    ensures if Mentioned(Held(events), id) then q > 0 && WordOn(events[q - 1], id) == LastWord(Held(events), id)
              else q == 0
    decreases events
  {
    q := 0;
    if events != [] {
      var first, rest := events[0], events[1..];
      assert first.roomId == roomId && Announced(first);
      var later := LastHeld(rest, roomId, id);
      HeldFirst(events, id);
      if Mentioned(Held(rest), id) {
        q := later + 1;
      } else if HeldUntilSnapshot(first) && WordOn(first, id).Some? {
        q := 1;
      }
      forall r | q <= r < |events| && WordOn(events[r], id).Some? ensures RemovedAt(events, r, id) {
        assert r > 0 ==> events[r] == rest[r - 1] && (r - 1 >= later ==> RemovedAt(rest, r - 1, id));
      }
    }
  }

  lemma {:induction false} HeldFirst(events: seq<ServerEvent>, id: string)
    requires events != []
    ensures LastWord(Held(events), id) == if Mentioned(Held(events[1..]), id) then LastWord(Held(events[1..]), id)
                                          else if HeldUntilSnapshot(events[0]) then WordOn(events[0], id) else None
  {
    var first := events[0];
    assert [first][1..] == [] && LastWord([first], id) == WordOn(first, id);
    LastWordAppend(if HeldUntilSnapshot(first) then [first] else [], Held(events[1..]), id);
  }

  /** Only removals of someone to the end, and no departure: so they were not in the room when the first came. */
  lemma {:induction false} OutBefore(h: seq<ServerEvent>, t: nat, i: nat, id: string)
    requires RemovalsFollowed(h) && t <= i < |h| && RemovedAt(h, i, id) && !Mentioned(h[i + 1..], id)
    requires forall r | t <= r < i && WordOn(h[r], id).Some? :: RemovedAt(h, r, id)
    ensures id !in RosterRun(map[], h[..t])
    decreases i - t
  {
    if WordOn(h[t], id).Some? {
      if id in RosterRun(map[], h[..t]) {
        var j :| t < j < |h| && h[j].ParticipantLeft? && h[j].participantId == id;
        OneLast(h, i, j, id);
      }
    } else {
      OutBefore(h, t + 1, i, id);
      OneMoreEvent(h, t, id);
    }
  }

  lemma {:induction false} OneMoreEvent(h: seq<ServerEvent>, t: nat, id: string)
    requires t < |h|
    ensures At(RosterRun(map[], h[..t + 1]), id) == if WordOn(h[t], id).Some? then WordOn(h[t], id).value
              else At(RosterRun(map[], h[..t]), id)
  {
    TakeOneMore(h, t);
    RunsAppend(map[], [], [], h[..t], [h[t]]);
    assert [h[t]][1..] == [] && LastWord([h[t]], id) == WordOn(h[t], id);
    LastDecides(RosterRun(map[], h[..t]), [h[t]], id);
  }

  /** If removals of people in the room are followed by departures, none is undone. */
  lemma {:induction false} NoneUndone(h: seq<ServerEvent>, roomId: string, s: nat, m: nat, k: nat, id: string)
    requires AllAnnounced(h, roomId) && RemovalsFollowed(h) && s <= m <= |h| && s <= k <= |h|
    ensures !RemovalUndone(h, s, m, RosterRun(map[], h[..k]), id)
  {
    forall i | s <= i < m && RemovedAt(h, i, id) && !Mentioned(h[i + 1..], id)
      ensures !UndoneAt(h, s, i, RosterRun(map[], h[..k]), id)
    {
      NotUndone(h, roomId, s, i, k, id);
    }
  }

  lemma {:induction false} NotUndone(h: seq<ServerEvent>, roomId: string, s: nat, i: nat, k: nat, id: string)
    requires AllAnnounced(h, roomId) && RemovalsFollowed(h) && s <= i < |h| && s <= k <= |h|
    requires RemovedAt(h, i, id) && !Mentioned(h[i + 1..], id)
    ensures if Mentioned(Held(h[s..i]), id) then LastWord(Held(h[s..i]), id).value.None?
              else id !in RosterRun(map[], h[..k])
  {
    var q := LastHeldIn(h, roomId, s, i, id);
    if q > s {
      OutBefore(h, q, i, id);
      OneMoreEvent(h, q - 1, id);
    } else if k <= i {
      OutBefore(h, k, i, id);
    } else {
      GoneAfter(h, i, k, id);
    }
  }

  lemma {:induction false} LastHeldIn(h: seq<ServerEvent>, roomId: string, s: nat, i: nat, id: string) returns (q: nat)
    requires AllAnnounced(h, roomId) && s <= i < |h|
    ensures s <= q <= i && (forall r | q <= r < i && WordOn(h[r], id).Some? :: RemovedAt(h, r, id))
    ensures if Mentioned(Held(h[s..i]), id) then q > s && WordOn(h[q - 1], id) == LastWord(Held(h[s..i]), id)
              else q == s
  {
    q := LastHeld(h[s..i], roomId, id);
    q := s + q;
    forall r | q <= r < i && WordOn(h[r], id).Some? ensures RemovedAt(h, r, id) {
      assert RemovedAt(h[s..i], r - s, id);
    }
  }

  lemma {:induction false} GoneAfter(h: seq<ServerEvent>, i: nat, k: nat, id: string)
    requires i < k <= |h| && RemovedAt(h, i, id) && !Mentioned(h[i + 1..], id)
    ensures id !in RosterRun(map[], h[..k])
  {
    OneMoreEvent(h, i, id);
    SplitFrom(h, i + 1, k);
    LastWordAppend(h[i + 1..k], h[k..], id);
    assert h[..k][..i + 1] == h[..i + 1] && h[..k][i + 1..] == h[i + 1..k];
    RosterAt(h[..k], i + 1, id);
  }

  /** What a roster becomes at someone depends on what it is at them. */
  lemma {:induction false} SameFrom(a: Roster, b: Roster, events: seq<ServerEvent>, id: string)
    requires At(a, id) == At(b, id)
    ensures At(RosterRun(a, events), id) == At(RosterRun(b, events), id)
  {
    LastDecides(a, events, id);
    LastDecides(b, events, id);
  }

  /** Then, with nothing held from before, everyone is shown as they are, whenever they were looked up. */
  lemma {:induction false} PeopleReturned(h: seq<ServerEvent>, roomId: string, s: nat, m: nat, roster: Roster,
                                          at: string -> nat)
    requires AllAnnounced(h, roomId) && RemovalsFollowed(h) && s <= m <= |h|
    requires forall id :: s <= at(id) <= |h| && At(roster, id) == At(RosterRun(map[], h[..at(id)]), id)
    ensures RosterRun(roster, [] + Held(h[s..m]) + h[m..]) == RosterRun(map[], h)
  {
    var heard := [] + Held(h[s..m]) + h[m..];
    forall id ensures At(RosterRun(roster, heard), id) == At(RosterRun(map[], h), id) {
      SameFrom(roster, RosterRun(map[], h[..at(id)]), heard, id);
      UndoneRosterIff(h, roomId, s, m, at(id), id);
      NoneUndone(h, roomId, s, m, at(id), id);
    }
    SameRosters(RosterRun(roster, heard), RosterRun(map[], h));
  }

  // ---- the whole room ----------------------------------------------------------------------------

  /** The feed at k, with h[s..] replayed, is the feed. */
  lemma {:induction false} FeedReturned(h: seq<ServerEvent>, roomId: string, s: nat, k: nat)
    requires WellFormed(h, roomId) && s <= k <= |h|
    ensures MediaRun(MediaRun([], h[..k]), h[s..]) == MediaRun([], h)
  {
    SplitAt(h, k);
    SplitFrom(h, s, k);
    RunsAppend(map[], [], [], h[..k], h[k..]);
    RunsAppend(map[], [], MediaRun([], h[..k]), h[s..k], h[k..]);
    ReplayChangesNothing(h, roomId, s, k);
  }

  /** So a feed that has each entry as it was at `s` or later shows each entry as it is. */
  lemma {:induction false} EntriesReturned(h: seq<ServerEvent>, roomId: string, s: nat, media: seq<Entry>,
                                           at: string -> nat)
    requires WellFormed(h, roomId) && s <= |h| && Distinct(MediaIds(media))
    requires forall x :: s <= at(x) <= |h| && FindEntry(media, x) == FindEntry(MediaRun([], h[..at(x)]), x)
    ensures ShowsFeed(MediaRun(media, h[s..]), h)
  {
    MediaRunFacts(media, h[s..], "");
    IdsStayDistinct(true, MediaIds(media), MediaIdEvents(h[s..]));
    forall x ensures FindEntry(MediaRun(media, h[s..]), x) == FindEntry(MediaRun([], h), x) {
      MediaRunFacts(media, h[s..], x);
      MediaRunFacts(MediaRun([], h[..at(x)]), h[s..], x);
      FeedReturned(h, roomId, s, at(x));
    }
  }

  lemma {:induction false} PicksFrom(h: seq<ServerEvent>, s: nat) returns (idx: seq<nat>)
    requires s <= |h|
    ensures Picks(h[s..], h, idx)
  {
    idx := seq(|h| - s, i requires 0 <= i < |h| - s => s + i);
  }

  /** In the order of someone there throughout exactly if what was given was announced in the order of its times. */
  lemma {:induction false} FeedInOrderIff(h: seq<ServerEvent>, s: nat, media: seq<Entry>)
    requires FeedOrderly(h) && s <= |h| && OfFeed(media, h) && NewestFirst(media)
    requires ShowsFeed(MediaRun(media, h[s..]), h)
    ensures MediaRun(media, h[s..]) == MediaRun([], h) <==> UploadedInOrder(h, media, h[s..])
  {
    var shown, all := MediaRun(media, h[s..]), MediaRun([], h);
    var idx := PicksFrom(h, s);
    forall x ensures x in MediaIds(shown) <==> x in MediaIds(all) {
      EntryFound(shown, x);
      EntryFound(all, x);
      assert FindEntry(shown, x) == FindEntry(all, x);
    }
    forall x | EntryShown(media, h[s..], x) ensures x in MediaIds(all) {
      EntryShownIff(h, media, h[s..], idx, x);
    }
    FeedOrderIff(h, media, h[s..], idx);
    DistinctFromEmpty(h);
    if SameOrder(MediaIds(shown), MediaIds(all)) {
      SameList(MediaIds(shown), MediaIds(all));
      SameMedia(shown, all);
    }
  }

  /** The messages a client shows: those the snapshot brings and those announced since. */
  ghost function Brought(given: seq<ChatMessage>, heard: seq<ServerEvent>): iset<string> {
    iset id | HasMessage(given, id) || PostedIn(heard, id)
  }

  /** A message seen at `k` and never deleted from `s <= k` on is in the room. */
  lemma {:induction false} SeenStays(h: seq<ServerEvent>, s: nat, k: nat, id: string)
    requires ChatOrderly(h) && s <= k <= |h| && FindMessage(ChatRun([], h[..k]), id).Some? && !DeletedIn(h[s..], id)
    ensures id in ChatIds(ChatRun([], h))
  {
    NoReuseBefore(h, k);
    PostedLives(h[..k], id);
    MessageFound(ChatRun([], h[..k]), id);
    PostedLives(h, id);
    var i :| 0 <= i < |h[..k]| && h[..k][i].ChatPosted? && h[..k][i].message.id == id;
    assert h[i] == h[..k][i];
    forall j | 0 <= j < |h| ensures !(h[j].ChatDeleted? && h[j].messageId == id) {
      if j < k {
        assert h[..k][j] == h[j];
      } else {
        assert h[s..][j - s] == h[j];
      }
    }
  }

  /** A message posted from `s` on, and not deleted from there on, is in the room. */
  lemma {:induction false} PostedStays(h: seq<ServerEvent>, s: nat, id: string)
    requires ChatOrderly(h) && s <= |h| && PostedIn(h[s..], id) && !DeletedIn(h[s..], id)
    ensures id in ChatIds(ChatRun([], h))
  {
    var i :| 0 <= i < |h[s..]| && h[s..][i].ChatPosted? && h[s..][i].message.id == id;
    assert h[s + i] == h[s..][i] && ChatIdEvents(h)[s + i] == Add(id);
    PostedLives(h, id);
    forall j | 0 <= j < |h| ensures !(h[j].ChatDeleted? && h[j].messageId == id) {
      assert ChatIdEvents(h)[j] == ChatIdEvent(h[j]);
      assert j >= s ==> h[s..][j - s] == h[j];
    }
  }

  /** Nothing is shown but what is in the room. */
  lemma {:induction false} ShownIsThere(h: seq<ServerEvent>, s: nat, given: seq<ChatMessage>, at: string -> nat)
    requires ChatOrderly(h) && s <= |h| && Distinct(ChatIds(given)) && (forall id :: s <= at(id) <= |h|)
    requires forall m | m in given :: Visible(h, at, m.id) == Some(m)
    ensures forall id | ChatShown(given, h[s..], id) :: id in ChatIds(ChatRun([], h))
  {
    forall id | ChatShown(given, h[s..], id) ensures id in ChatIds(ChatRun([], h)) {
      if PostedIn(h[s..], id) {
        PostedStays(h, s, id);
      } else {
        var i :| 0 <= i < |given| && given[i].id == id;
        assert given[i] in given;
        SeenStays(h, s, at(id), id);
      }
    }
  }

  lemma {:induction false} MessagesReturned(h: seq<ServerEvent>, s: nat, given: seq<ChatMessage>, at: string -> nat)
    requires ChatOrderly(h) && s <= |h| && OfHistory(given, h) && (forall id :: s <= at(id) <= |h|)
    requires forall m | m in given :: Visible(h, at, m.id) == Some(m)
    ensures ShowsMessages(ChatRun(given, h[s..]), h, Brought(given, h[s..]))
  {
    var idx := PicksFrom(h, s);
    var shown := ChatRun(given, h[s..]);
    ChatRunFacts(given, h[s..], "");
    IdsStayDistinct(false, ChatIds(given), ChatIdEvents(h[s..]));
    ShownIsThere(h, s, given, at);
    forall id ensures FindMessage(shown, id)
        == if id in Brought(given, h[s..]) then FindMessage(ChatRun([], h), id) else None {
      MessageShown(h, given, h[s..], idx, id);
      MessageFound(ChatRun([], h), id);
      if DeletedIn(h[s..], id) {
        var j :| 0 <= j < |h[s..]| && h[s..][j].ChatDeleted? && h[s..][j].messageId == id;
        assert h[s + j] == h[s..][j];
        PostedLives(h, id);
      }
    }
  }

  /** The client has been told everything from position `a` on, and was not removed. */
  ghost predicate ToldAll(state: RoomState, roomId: string, h: seq<ServerEvent>, a: nat, s: nat, m: nat, at: Positions,
                          limit: nat, snapshot: ServerEvent)
  {
    && WellFormed(h, roomId) && SparesMe(state.me, h) && a <= s <= m <= |h| && Between(at, a, |h|)
    && !IsCurrentRoom(state, roomId) && HeldFrom(state, roomId) == Held(h[a..s]) && |state.heldEvents| <= MAX_HELD
    && SnapshotOf(snapshot, roomId, h, at, limit)
  }

  /** And all that had to be held found room. */
  ghost predicate HearsAll(state: RoomState, roomId: string, h: seq<ServerEvent>, a: nat, s: nat, m: nat, at: Positions,
                           limit: nat, snapshot: ServerEvent)
  {
    ToldAll(state, roomId, h, a, s, m, at, limit, snapshot) && |Held(h[a..m])| <= MAX_HELD
  }

  lemma {:induction false} ToldComesBack(state: RoomState, roomId: string, h: seq<ServerEvent>, a: nat, s: nat, m: nat,
                                         at: Positions,
                                         limit: nat, snapshot: ServerEvent)
    requires ToldAll(state, roomId, h, a, s, m, at, limit, snapshot)
    ensures ComesBack(state, snapshot, h[s..m], h[m..])
    ensures HeardBack(state, roomId, h[s..m], h[m..]) == Taken(Held(h[a..m])) + h[m..]
  {
    HeldInTwo(h, roomId, a, s, m);
    PartsSpareMe(state.me, h, s, m);
  }

  /** What it then shows. */
  lemma {:induction false} ToldLists(state: RoomState, roomId: string, h: seq<ServerEvent>, a: nat, s: nat, m: nat,
                                     at: Positions,
                                     limit: nat, snapshot: ServerEvent)
    requires ToldAll(state, roomId, h, a, s, m, at, limit, snapshot)
    ensures var t, heard := Back(state, snapshot, h[s..m], h[m..]), Taken(Held(h[a..m])) + h[m..];
            && IsCurrentRoom(t, roomId)
            && t.participants == PeopleRun(snapshot.participants, heard)
            && t.chat == ChatRun(snapshot.chatHistory, heard)
            && t.media == MediaRun(Sort(NewerEntry(), snapshot.media), heard)
  {
    ToldComesBack(state, roomId, h, a, s, m, at, limit, snapshot);
    BackIs(state, snapshot, h[s..m], h[m..]);
    SnapshotSorted(h, roomId, at, limit, snapshot);
  }

  /** Its lists. */
  lemma {:induction false} ListsBack(state: RoomState, roomId: string, h: seq<ServerEvent>, a: nat, s: nat, m: nat,
                                     at: Positions,
                                     limit: nat, snapshot: ServerEvent)
    requires HearsAll(state, roomId, h, a, s, m, at, limit, snapshot)
    ensures var t := Back(state, snapshot, h[s..m], h[m..]);
            && IsCurrentRoom(t, roomId)
            && t.participants == PeopleRun(snapshot.participants, [] + Held(h[a..m]) + h[m..])
            && t.chat == ChatRun(snapshot.chatHistory, h[a..])
            && t.media == MediaRun(Sort(NewerEntry(), snapshot.media), h[a..])
  {
    ToldLists(state, roomId, h, a, s, m, at, limit, snapshot);
    assert [] + Held(h[a..m]) == Held(h[a..m]);
    OldInHistory(snapshot.chatHistory, Sort(NewerEntry(), snapshot.media), h, roomId, a, m);
  }

  /**
   * Resync. A client that has heard everything from position `a` on, some of it before its connection was lost, asks
   * for the room, holds what comes until a snapshot arrives whose queries each saw the room at `a` or later, and hears
   * the rest live. It shows the people and the entries that someone there for all of `h` shows, each as it is, and of
   * the messages those the snapshot brings and those announced since. Messages and entries stand in the order in which
   * they were announced if and only if those the snapshot brings were announced in the order of their times, and before
   * the others that are shown.
   */
  lemma {:induction false} Resynced(state: RoomState, roomId: string, h: seq<ServerEvent>, a: nat, s: nat, m: nat,
                                    at: Positions,
                                    limit: nat, snapshot: ServerEvent)
    requires HearsAll(state, roomId, h, a, s, m, at, limit, snapshot) && RemovalsFollowed(h)
    ensures var t := Back(state, snapshot, h[s..m], h[m..]);
            && ShowsPeople(t, roomId, h)
            && ShowsFeed(t.media, h)
            && (t.media == MediaRun([], h) <==> UploadedInOrder(h, Sort(NewerEntry(), snapshot.media), h[a..]))
            && ShowsMessages(t.chat, h, Brought(snapshot.chatHistory, h[a..]))
            && (SameOrder(ChatIds(t.chat), ChatIds(ChatRun([], h))) <==>
                AnnouncedByTime(h, snapshot.chatHistory, h[a..]))
  {
    var media, chat := Sort(NewerEntry(), snapshot.media), snapshot.chatHistory;
    ListsBack(state, roomId, h, a, s, m, at, limit, snapshot);
    SnapshotSorted(h, roomId, at, limit, snapshot);
    PeopleRunFacts(snapshot.participants, [] + Held(h[a..m]) + h[m..]);
    PeopleReturned(h, roomId, a, m, RosterOf(snapshot.participants), at.people);
    EntriesReturned(h, roomId, a, media, at.media);
    FeedInOrderIff(h, a, media);
    MessagesReturned(h, a, chat, at.chat);
    ShownIsThere(h, a, chat, at.chat);
    var idx := PicksFrom(h, a);
    ChatOrderIff(h, chat, h[a..], idx);
  }

  /** The snapshot has every message its query saw: there were no more than it may bring. */
  ghost predicate AllSeen(snapshot: ServerEvent, h: seq<ServerEvent>, at: Positions)
    requires snapshot.RoomSnapshot? && Between(at, 0, |h|)
  {
    forall id | Visible(h, at.chat, id).Some? :: HasMessage(snapshot.chatHistory, id)
  }

  /** Then all the room's messages are shown; and in the order in which they were announced exactly as said. */
  lemma {:induction false} WholeChat(state: RoomState, roomId: string, h: seq<ServerEvent>, a: nat, s: nat, m: nat,
                                     at: Positions,
                                     limit: nat, snapshot: ServerEvent)
    requires HearsAll(state, roomId, h, a, s, m, at, limit, snapshot) && RemovalsFollowed(h) && AllSeen(snapshot, h, at)
    ensures var t := Back(state, snapshot, h[s..m], h[m..]);
            && (forall id :: FindMessage(t.chat, id) == FindMessage(ChatRun([], h), id))
            && (t.chat == ChatRun([], h) <==> AnnouncedByTime(h, snapshot.chatHistory, h[a..]))
  {
    Resynced(state, roomId, h, a, s, m, at, limit, snapshot);
    var shown, all := Back(state, snapshot, h[s..m], h[m..]).chat, ChatRun([], h);
    forall id ensures FindMessage(shown, id) == FindMessage(all, id) {
      MessageFound(all, id);
      if FindMessage(all, id).Some? {
        SeenOrPosted(h, a, at.chat(id), id);
      }
    }
    if SameOrder(ChatIds(shown), ChatIds(all)) {
      forall id ensures id in ChatIds(shown) <==> id in ChatIds(all) {
        MessageFound(shown, id);
        MessageFound(all, id);
      }
      DistinctFromEmpty(h);
      SameList(ChatIds(shown), ChatIds(all));
      SameChat(shown, all);
    }
  }

  /** What is in the room was seen at `k >= s`, or is posted from `s` on. */
  lemma {:induction false} SeenOrPosted(h: seq<ServerEvent>, s: nat, k: nat, id: string)
    requires ChatOrderly(h) && s <= k <= |h| && FindMessage(ChatRun([], h), id).Some?
    ensures FindMessage(ChatRun([], h[..k]), id).Some? || PostedIn(h[s..], id)
  {
    MessageFound(ChatRun([], h), id);
    PostedLives(h, id);
    NoReuseBefore(h, k);
    PostedLives(h[..k], id);
    MessageFound(ChatRun([], h[..k]), id);
    var i :| 0 <= i < |h| && h[i].ChatPosted? && h[i].message.id == id;
    if i < k {
      assert h[..k][i] == h[i];
      forall j | 0 <= j < k ensures !(h[..k][j].ChatDeleted? && h[..k][j].messageId == id) {
        assert h[..k][j] == h[j];
      }
    } else {
      assert h[s..][i - s] == h[i];
    }
  }

  /** All three queries saw the room at one position each, and everything was announced in the order of its times. */
  ghost predicate NothingCrossed(h: seq<ServerEvent>, at: Positions, chat: nat, media: nat) {
    && (forall id :: at.chat(id) == chat) && (forall x :: at.media(x) == media)
    && (forall i, j | 0 <= i < j < |h| && h[i].ChatPosted? && h[j].ChatPosted? ::
          h[i].message.createdAt < h[j].message.createdAt)
    && (forall i, j | 0 <= i < j < |h| && h[i].MediaUploaded? && h[j].MediaUploaded? ::
          h[i].mediaItem.createdAt < h[j].mediaItem.createdAt)
  }

  /** So if nothing crossed, and the chat is not cut, the client shows all exactly as someone there throughout does. */
  lemma {:induction false} ResyncedInOrder(state: RoomState, roomId: string, h: seq<ServerEvent>, a: nat, s: nat,
                                           m: nat, at: Positions,
                                          limit: nat, snapshot: ServerEvent, chat: nat, media: nat)
    requires HearsAll(state, roomId, h, a, s, m, at, limit, snapshot) && RemovalsFollowed(h)
    requires AllSeen(snapshot, h, at) && NothingCrossed(h, at, chat, media)
    ensures Shows(Back(state, snapshot, h[s..m], h[m..]), roomId, h)
  {
    Resynced(state, roomId, h, a, s, m, at, limit, snapshot);
    WholeChat(state, roomId, h, a, s, m, at, limit, snapshot);
    SnapshotInStep(h, roomId, a, at, limit, snapshot, chat, media);
  }

  /** Nothing crossed, so what the snapshot brings was announced in the order of its times, and ahead of the rest. */
  lemma {:induction false} SnapshotInStep(h: seq<ServerEvent>, roomId: string, a: nat, at: Positions, limit: nat,
                                          snapshot: ServerEvent, chat: nat, media: nat)
    requires WellFormed(h, roomId) && a <= |h| && Between(at, a, |h|) && SnapshotOf(snapshot, roomId, h, at, limit)
    requires AllSeen(snapshot, h, at) && NothingCrossed(h, at, chat, media)
    ensures AnnouncedByTime(h, snapshot.chatHistory, h[a..])
    ensures UploadedInOrder(h, Sort(NewerEntry(), snapshot.media), h[a..])
  {
    SnapshotSorted(h, roomId, at, limit, snapshot);
    assert at.chat("") == chat && at.media("") == media;
    PostsInStep(h, a, chat, snapshot.chatHistory, at.chat);
    EntriesReturned(h, roomId, a, Sort(NewerEntry(), snapshot.media), at.media);
    UploadsInStep(h, roomId, a, media, Sort(NewerEntry(), snapshot.media), at.media);
  }

  lemma {:induction false} PostsInStep(h: seq<ServerEvent>, s: nat, k: nat, given: seq<ChatMessage>, at: string -> nat)
    requires ChatOrderly(h) && s <= k <= |h| && OfHistory(given, h) && (forall id :: at(id) == k)
    requires forall m | m in given :: Visible(h, at, m.id) == Some(m)
    requires forall id | Visible(h, at, id).Some? :: HasMessage(given, id)
    requires forall i, j | 0 <= i < j < |h| && h[i].ChatPosted? && h[j].ChatPosted? ::
               h[i].message.createdAt < h[j].message.createdAt
    ensures AnnouncedByTime(h, given, h[s..])
  {
    ShownIsThere(h, s, given, at);
    forall i, j | 0 <= i < j < |h| && h[i].ChatPosted? && h[j].ChatPosted?
                  && ChatShown(given, h[s..], h[i].message.id) && ChatShown(given, h[s..], h[j].message.id)
                  && HasMessage(given, h[j].message.id)
      ensures HasMessage(given, h[i].message.id) && Before(given, h[i].message, h[j].message)
    {
      GivenBefore(h, k, given, at, i, j);
    }
  }

  /** Given means announced before `k`; so whatever was announced earlier, and is there, is given too. */
  lemma {:induction false} GivenBefore(h: seq<ServerEvent>, k: nat, given: seq<ChatMessage>, at: string -> nat, i: nat,
                                       j: nat)
    requires ChatOrderly(h) && k <= |h| && (forall id :: at(id) == k)
    requires forall m | m in given :: Visible(h, at, m.id) == Some(m)
    requires forall id | Visible(h, at, id).Some? :: HasMessage(given, id)
    requires i < j < |h| && h[i].ChatPosted? && h[j].ChatPosted?
    requires HasMessage(given, h[j].message.id) && h[i].message.id in ChatIds(ChatRun([], h))
    ensures HasMessage(given, h[i].message.id)
  {
    var y, x := h[j].message.id, h[i].message.id;
    var p :| 0 <= p < |given| && given[p].id == y;
    assert given[p] in given;
    NoReuseBefore(h, k);
    MessageFound(ChatRun([], h[..k]), y);
    PostedLives(h[..k], y);
    var q :| 0 <= q < |h[..k]| && h[..k][q].ChatPosted? && h[..k][q].message.id == y;
    assert h[q] == h[..k][q];
    assert q == j;
    PostedLives(h, x);
    PostedLives(h[..k], x);
    MessageFound(ChatRun([], h[..k]), x);
    assert h[..k][i] == h[i];
    forall r | 0 <= r < k ensures !(h[..k][r].ChatDeleted? && h[..k][r].messageId == x) {
      assert h[..k][r] == h[r];
    }
  }

  lemma {:induction false} UploadsInStep(h: seq<ServerEvent>, roomId: string, s: nat, k: nat, given: seq<Entry>,
                                         at: string -> nat)
    requires WellFormed(h, roomId) && s <= k <= |h| && OfFeed(given, h) && (forall x :: at(x) == k)
    requires forall x :: FindEntry(given, x) == FindEntry(MediaRun([], h[..at(x)]), x)
    requires ShowsFeed(MediaRun(given, h[s..]), h)
    requires forall i, j | 0 <= i < j < |h| && h[i].MediaUploaded? && h[j].MediaUploaded? ::
               h[i].mediaItem.createdAt < h[j].mediaItem.createdAt
    ensures UploadedInOrder(h, given, h[s..])
  {
    var idx := PicksFrom(h, s);
    forall i, j | 0 <= i < j < |h| && h[i].MediaUploaded? && h[j].MediaUploaded?
                  && EntryShown(given, h[s..], h[i].mediaItem.id) && EntryShown(given, h[s..], h[j].mediaItem.id)
                  && HasEntry(given, h[j].mediaItem.id)
      ensures HasEntry(given, h[i].mediaItem.id)
    {
      var x := h[i].mediaItem.id;
      EntryShownIff(h, given, h[s..], idx, x);
      EntryFound(MediaRun(given, h[s..]), x);
      EntryFound(MediaRun([], h), x);
      assert FindEntry(MediaRun(given, h[s..]), x) == FindEntry(MediaRun([], h), x);
      GivenEarlier(h, k, given, i, j);
    }
  }

  lemma {:induction false} GivenEarlier(h: seq<ServerEvent>, k: nat, given: seq<Entry>, i: nat, j: nat)
    requires FeedOrderly(h) && k <= |h| && i < j < |h| && h[i].MediaUploaded? && h[j].MediaUploaded?
    requires forall x :: FindEntry(given, x) == FindEntry(MediaRun([], h[..k]), x)
    requires HasEntry(given, h[j].mediaItem.id) && h[i].mediaItem.id in MediaIds(MediaRun([], h))
    ensures HasEntry(given, h[i].mediaItem.id)
  {
    var y, x := h[j].mediaItem.id, h[i].mediaItem.id;
    EntryFound(given, y);
    EntryFound(given, x);
    EntryFound(MediaRun([], h[..k]), y);
    EntryFound(MediaRun([], h[..k]), x);
    InFeed(h, k, y);
    var q :| 0 <= q < |h[..k]| && Uploads(h[..k][q], y);
    assert Uploads(h[q], y) && Uploads(h[j], y) && Orderly(NotYet, h, y);
    if q < j {
      UploadedOnce(h, y, q, j);
    }
    if j < q {
      UploadedOnce(h, y, j, q);
    }
    InFeed(h, k, x);
    assert Uploads(h[..k][i], x);
    TakeAll(h);
    InFeed(h, |h|, x);
    forall r | 0 <= r < k ensures !Deletes(h[..k][r], x) {
      assert h[..k][r] == h[r] && h[..|h|][r] == h[r];
    }
  }

  /**
   * If the chat's query saw the room at one position `k`, the chat is what the snapshot brings and what came after `k`,
   * in that order, if and only if every message posted from `a` to `k`, and not deleted, is one of those it brings.
   */
  lemma {:induction false} NewestAndAfter(state: RoomState, roomId: string, h: seq<ServerEvent>, a: nat, s: nat, m: nat,
                                          at: Positions,
                                          limit: nat, snapshot: ServerEvent, k: nat)
    requires HearsAll(state, roomId, h, a, s, m, at, limit, snapshot) && forall id :: at.chat(id) == k
    ensures Back(state, snapshot, h[s..m], h[m..]).chat == ChatRun(snapshot.chatHistory, h[k..])
       <==> AllIn(h[a..k], h[k..], snapshot.chatHistory)
  {
    ListsBack(state, roomId, h, a, s, m, at, limit, snapshot);
    assert at.chat("") == k;
    OneWindow(h, at.chat, k, limit, snapshot.chatHistory);
    var idx := PicksPart(h, a, k);
    SplitFrom(h, a, k);
    RunsAppend(map[], snapshot.chatHistory, [], h[a..k], h[k..]);
    WindowKeptIff(h, k, snapshot.chatHistory, h[a..k], idx);
  }

  lemma {:induction false} OneWindow(h: seq<ServerEvent>, at: string -> nat, k: nat, limit: nat, chat: seq<ChatMessage>)
    requires k <= |h| && (forall id :: at(id) == k) && IsNewest(chat, limit, h, at)
    ensures forall id | id in ChatIds(chat) :: id in ChatIds(ChatRun([], h[..k]))
  {
    forall id | id in ChatIds(chat) ensures id in ChatIds(ChatRun([], h[..k])) {
      var i :| 0 <= i < |ChatIds(chat)| && ChatIds(chat)[i] == id;
      assert chat[i] in chat;
      MessageFound(ChatRun([], h[..k]), id);
    }
  }

  lemma {:induction false} PicksPart(h: seq<ServerEvent>, s: nat, k: nat) returns (idx: seq<nat>)
    requires s <= k <= |h|
    ensures Picks(h[s..k], h[..k], idx)
  {
    idx := seq(k - s, i requires 0 <= i < k - s => s + i);
  }

  /**
   * Whether or not removals are followed by departures, that client shows someone otherwise than they are if and only
   * if their removal is undone by what it holds.
   */
  lemma {:induction false} RemovalUndoneIff(state: RoomState, roomId: string, h: seq<ServerEvent>, a: nat, s: nat,
                                            m: nat, at: Positions,
                                            limit: nat, snapshot: ServerEvent, id: string)
    requires HearsAll(state, roomId, h, a, s, m, at, limit, snapshot)
    ensures var t := Back(state, snapshot, h[s..m], h[m..]);
            At(RosterOf(t.participants), id) != At(RosterRun(map[], h), id) <==>
              RemovalUndone(h, a, m, RosterOf(snapshot.participants), id)
  {
    var heard, k := [] + Held(h[a..m]) + h[m..], at.people(id);
    ListsBack(state, roomId, h, a, s, m, at, limit, snapshot);
    PeopleRunFacts(snapshot.participants, heard);
    SameFrom(RosterOf(snapshot.participants), RosterRun(map[], h[..k]), heard, id);
    UndoneRosterIff(h, roomId, a, m, k, id);
    UndoneAlike(h, a, m, RosterOf(snapshot.participants), RosterRun(map[], h[..k]), id);
  }

  lemma {:induction false} UndoneAlike(h: seq<ServerEvent>, s: nat, m: nat, one: Roster, other: Roster, id: string)
    requires s <= m <= |h| && At(one, id) == At(other, id)
    ensures RemovalUndone(h, s, m, one, id) <==> RemovalUndone(h, s, m, other, id)
  {
    assert id in one <==> id in other;
    forall i | s <= i < m ensures UndoneAt(h, s, i, one, id) <==> UndoneAt(h, s, i, other, id) {}
  }

  lemma {:induction false} PartsSpareMe(me: Option<Participant>, h: seq<ServerEvent>, s: nat, m: nat)
    requires SparesMe(me, h) && s <= m <= |h|
    ensures SparesMe(me, h[s..m]) && SparesMe(me, h[m..])
  {
  }

  lemma {:induction false} HeldInTwo(h: seq<ServerEvent>, roomId: string, a: nat, s: nat, m: nat)
    requires AllAnnounced(h, roomId) && a <= s <= m <= |h|
    ensures Held(h[a..m]) == Held(h[a..s]) + Held(h[s..m])
    ensures AllHeldFor(Held(h[a..s]), roomId) && AllAnnounced(h[s..m], roomId) && AllAnnounced(h[m..], roomId)
  {
    assert h[a..m] == h[a..s] + h[s..m];
    HeldAppend(h[a..s], h[s..m]);
    HeldAreHeld(h[a..s], roomId);
  }

  lemma {:induction false} OldInHistory(chat: seq<ChatMessage>, media: seq<Entry>, h: seq<ServerEvent>, roomId: string,
                                        a: nat, m: nat)
    requires AllAnnounced(h, roomId) && a <= m <= |h|
    ensures ChatRun(chat, [] + Held(h[a..m]) + h[m..]) == ChatRun(chat, h[a..])
    ensures MediaRun(media, [] + Held(h[a..m]) + h[m..]) == MediaRun(media, h[a..])
  {
    SplitFrom(h, a, m);
    RunsWithHeld(chat, media, [], h[a..m], h[m..], roomId);
    assert [] + (h[a..m] + h[m..]) == h[a..];
  }

  // ---- where the claim stops -----------------------------------------------------------------

  const ANN := Participant("a", "Ann", "red")
  const BO := Participant("b", "Bo", "blue")

  /** A room seen live: ready, and empty. */
  function EmptyRoom(roomId: string): RoomState {
    RoomState(None, Some(roomId), true, Some(roomId), [], [], [], [], map[], None, false)
  }

  /**
   * People are the same as a set, not as a list. Ann comes, goes and comes back before Bo joins; a snapshot then lists
   * her first, but replaying her departure puts her behind Bo. `PeopleOrder.PeopleOrderKeptIff` says exactly when.
   */
  lemma {:induction false} PeopleMayChangePlaces()
    ensures var h := [ParticipantJoined("r", ANN), ParticipantLeft("r", "a"), ParticipantJoined("r", ANN),
                      ParticipantJoined("r", BO)];
            && Replay(EmptyRoom("r"), h).participants == [ANN, BO]
            && Replay(EmptyRoom("r").(participants := [ANN, BO]), h).participants == [BO, ANN]
  {
    TwoPeople();
    var annJoins, annLeaves, boJoins := ParticipantJoined("r", ANN), ParticipantLeft("r", "a"),
                                        ParticipantJoined("r", BO);
    var h := [annJoins, annLeaves, annJoins, boJoins];
    FourEvents(EmptyRoom("r"), annJoins, annLeaves, annJoins, boJoins);
    FourEvents(EmptyRoom("r").(participants := [ANN, BO]), annJoins, annLeaves, annJoins, boJoins);
  }

  /** The lists two people can make, one step at a time. */
  lemma {:induction false} TwoPeople()
    ensures UpsertParticipant([], ANN) == [ANN] && WithoutParticipant([ANN], "a") == []
    ensures UpsertParticipant([ANN], BO) == [ANN, BO] && UpsertParticipant([ANN, BO], ANN) == [ANN, BO]
    ensures WithoutParticipant([ANN, BO], "a") == [BO] && UpsertParticipant([BO], ANN) == [BO, ANN]
    ensures UpsertParticipant([BO, ANN], BO) == [BO, ANN]
  {
    assert ANN.id[0] != BO.id[0];
    assert [ANN][1..] == [] && [BO][1..] == [] && [ANN, BO][1..] == [BO] && [BO, ANN][1..] == [ANN];
    assert UpsertParticipant([ANN], BO) == [ANN] + UpsertParticipant([], BO);
    assert UpsertParticipant([BO], ANN) == [BO] + UpsertParticipant([], ANN);
    assert WithoutParticipant([BO], "a") == [BO] + WithoutParticipant([], "a");
    assert WithoutParticipant([ANN, BO], "a") == [] + WithoutParticipant([BO], "a");
  }

  lemma {:induction false} FourEvents(state: RoomState, e0: ServerEvent, e1: ServerEvent, e2: ServerEvent,
                                      e3: ServerEvent)
    ensures Replay(state, [e0, e1, e2, e3]) == ApplyToRoom(ApplyToRoom(ApplyToRoom(ApplyToRoom(state, e0), e1), e2), e3)
  {
    var h := [e0, e1, e2, e3];
    assert h[1..] == [e1, e2, e3] && [e1, e2, e3][1..] == [e2, e3] && [e2, e3][1..] == [e3] && [e3][1..] == [];
    var s1 := ApplyToRoom(state, e0);
    var s2 := ApplyToRoom(s1, e1);
    var s3 := ApplyToRoom(s2, e2);
    assert Replay(s3, [e3]) == ApplyToRoom(s3, e3);
    assert Replay(s2, [e2, e3]) == Replay(s3, [e3]);
    assert Replay(s1, [e1, e2, e3]) == Replay(s2, [e2, e3]);
  }

  /**
   * A removal is not among the held events, so on its own it is lost before a snapshot that does not know of it,
   * while the joining it undid is replayed (`RemovalUndoneIff`). The server follows every removal of someone present
   * with a departure, which is held: that is what keeps the list right (`Resynced`).
   */
  lemma {:induction false} RemovalAloneIsLost(state: RoomState, snapshot: ServerEvent)
    requires state == EmptyRoom("r").(synced := false)
    requires snapshot == RoomSnapshot("r", [], [], [])
    ensures Run(state, [FromServer(ParticipantJoined("r", ANN)), FromServer(ParticipantRemoved("r", "a")),
                        FromServer(snapshot)]).participants == [ANN]
    ensures Run(EmptyRoom("r"), [FromServer(ParticipantJoined("r", ANN)),
                                 FromServer(ParticipantRemoved("r", "a"))]).participants == []
  {
    TwoPeople();
    var joined, removed := FromServer(ParticipantJoined("r", ANN)), FromServer(ParticipantRemoved("r", "a"));
    ThreeActions(state, joined, removed, FromServer(snapshot));
    var held := state.(heldEvents := [joined.event]);
    assert [] + [joined.event] == [joined.event];
    assert Reduce(Reduce(state, joined), removed) == held;
    ReplayedOne(held, joined.event, snapshot);
    assert [joined, removed][1..] == [removed];
    RunOne(Reduce(EmptyRoom("r"), joined), removed);
  }

  lemma {:induction false} ThreeActions(state: RoomState, a: RoomAction, b: RoomAction, c: RoomAction)
    ensures Run(state, [a, b, c]) == Reduce(Reduce(Reduce(state, a), b), c)
  {
    assert [a, b, c][1..] == [b, c] && [b, c][1..] == [c];
    assert Run(Reduce(state, a), [b, c]) == Run(Reduce(Reduce(state, a), b), [c]);
    RunOne(Reduce(Reduce(state, a), b), c);
  }

  /** One joining held, replayed on an empty snapshot. */
  lemma {:induction false} ReplayedOne(state: RoomState, joined: ServerEvent, snapshot: ServerEvent)
    requires !state.synced && state.heldEvents == [joined] && joined == ParticipantJoined("r", ANN)
    requires snapshot == RoomSnapshot("r", [], [], [])
    ensures Reduce(state, FromServer(snapshot)).participants == [ANN]
  {
    TwoPeople();
    AllOfRoom([joined], "r");
    assert [joined][1..] == [];
    var bare := ApplySnapshot(state.(heldEvents := []), snapshot);
    assert Reduce(state, FromServer(snapshot)) == Replay(bare, [joined]);
    assert Replay(bare, [joined]) == ApplyToRoom(bare, joined);
  }

  /**
   * Why nothing may be missed between: losing the connection keeps the held events. Ann joins while a first connection
   * waits for its snapshot; it drops, she leaves unheard, and the second connection's snapshot, though right, gets her
   * joining replayed on top. `OldEvents` says exactly what events held from before spoil.
   */
  lemma {:induction false} HeldAcrossConnections(state: RoomState, snapshot: ServerEvent)
    requires state == EmptyRoom("r").(synced := false)
    requires snapshot == RoomSnapshot("r", [], [], [])
    ensures Run(state, [FromServer(ParticipantJoined("r", ANN)), ConnectionLost, RoomRequested("r"),
                        FromServer(snapshot)]).participants == [ANN]
  {
    var joined := FromServer(ParticipantJoined("r", ANN));
    var held := state.(heldEvents := [joined.event]);
    assert [] + [joined.event] == [joined.event];
    assert Reduce(state, joined) == held;
    assert [joined, ConnectionLost, RoomRequested("r"), FromServer(snapshot)]
        == [joined] + [ConnectionLost, RoomRequested("r"), FromServer(snapshot)];
    RunAppend(state, [joined], [ConnectionLost, RoomRequested("r"), FromServer(snapshot)]);
    RunOne(state, joined);
    ThreeActions(held, ConnectionLost, RoomRequested("r"), FromServer(snapshot));
    ReplayedOne(Reduce(Reduce(held, ConnectionLost), RoomRequested("r")), joined.event, snapshot);
  }
}
