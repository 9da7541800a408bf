/**
 * What else a client shows of its room (client/src/state/roomReducer.ts): its documents, who is typing, that it was
 * removed; and what a change of rooms leaves of the former one.
 */
module RoomNotices {
  import opened Options
  import opened Sequences
  import opened Sorting
  import opened RoomReducer
  import opened ReplayLists
  import opened ChatWindow
  import opened Resync

  // ---- documents -----------------------------------------------------------------------------------

  /** The documents each event announces, if it does. */
  function DocumentsIn(events: seq<ServerEvent>): seq<Option<seq<string>>> {
    if events == [] then [] else [DocumentsSaid(events[0])] + DocumentsIn(events[1..])
  }

  function DocumentsSaid(event: ServerEvent): Option<seq<string>> {
    if event.DocumentsUpdated? then Some(event.documents) else None
  }

  lemma {:induction false} DocumentsInAppend(events: seq<ServerEvent>, last: ServerEvent)
    ensures DocumentsIn(events + [last]) == DocumentsIn(events) + [DocumentsSaid(last)]
    decreases events
  {
    if events == [] {
      assert [] + [last] == [last] && DocumentsIn([last][1..]) == [];
    } else {
      TailOfAppend(events, [last]);
      DocumentsInAppend(events[1..], last);
    }
  }

  lemma {:induction false} StaysCurrent(state: RoomState, roomId: string, events: seq<ServerEvent>)
    requires IsCurrentRoom(state, roomId) && AllAnnounced(events, roomId)
    ensures IsCurrentRoom(Replay(state, events), roomId) && Replay(state, events).me == state.me
    decreases events
  {
    if events != [] {
      assert events[0].roomId == roomId && Announced(events[0]);
      StaysCurrent(ApplyToRoom(state, events[0]), roomId, events[1..]);
    }
  }

  lemma {:induction false} DocumentsStep(state: RoomState, roomId: string, event: ServerEvent)
    requires IsCurrentRoom(state, roomId) && event.roomId == roomId && Announced(event)
    ensures ApplyToRoom(state, event).documents == Or(DocumentsSaid(event), state.documents)
  {
  }

  lemma {:induction false} DocumentsReplayed(state: RoomState, roomId: string, events: seq<ServerEvent>)
    requires IsCurrentRoom(state, roomId) && AllAnnounced(events, roomId)
    ensures LastNamed(Replay(state, events).documents, state.documents, DocumentsIn(events))
    decreases |events|
  {
    if events != [] {
      var before, last := events[..|events| - 1], events[|events| - 1];
      DocumentsReplayed(state, roomId, before);
      StaysCurrent(state, roomId, before);
      ReplayOneMore(state, before, last);
      assert events == before + [last];
      DocumentsInAppend(before, last);
      DocumentsStep(Replay(state, before), roomId, last);
      NamedMore(Replay(state, before).documents, state.documents, DocumentsIn(before), DocumentsSaid(last));
    }
  }

  lemma {:induction false} ReplayAppend(state: RoomState, p: seq<ServerEvent>, q: seq<ServerEvent>)
    ensures Replay(state, p + q) == Replay(Replay(state, p), q)
    decreases p
  {
    if p == [] {
      assert p + q == q;
    } else {
      TailOfAppend(p, q);
      ReplayAppend(ApplyToRoom(state, p[0]), p[1..], q);
    }
  }

  lemma {:induction false} ReplayOneMore(state: RoomState, events: seq<ServerEvent>, last: ServerEvent)
    ensures Replay(state, events + [last]) == ApplyToRoom(Replay(state, events), last)
  {
    ReplayAppend(state, events, [last]);
    var s := Replay(state, events);
    assert [last][1..] == [] && Replay(ApplyToRoom(s, last), []) == ApplyToRoom(s, last);
  }

  /** While it waits, a client's documents stay. */
  lemma {:induction false} WaitingKeeps(state: RoomState, roomId: string, events: seq<ServerEvent>)
    requires !state.synced && state.activeRoomId == Some(roomId) && AllAnnounced(events, roomId)
    ensures Run(state, Arriving(events)).documents == state.documents
    ensures Run(state, Arriving(events)).activeRoomId == Some(roomId)
    decreases events
  {
    if events != [] {
      assert events[0].roomId == roomId && Announced(events[0]);
      assert Arriving(events)[1..] == Arriving(events[1..]);
      WaitingKeeps(Reduce(state, FromServer(events[0])), roomId, events[1..]);
    }
  }

  /**
   * Coming to a room, a client shows the documents last announced there, in what it held or since it asked; and if none
   * were, those that it showed before, of whatever room.
   */
  lemma {:induction false} DocumentsBack(state: RoomState, snapshot: ServerEvent, before: seq<ServerEvent>,
                                         live: seq<ServerEvent>)
    requires ComesBack(state, snapshot, before, live)
    requires |HeldFrom(state, snapshot.roomId)| + |Held(before)| <= MAX_HELD
    ensures LastNamed(Back(state, snapshot, before, live).documents, state.documents,
                      DocumentsIn(HeldFrom(state, snapshot.roomId) + before + live))
  {
    var early := HeldFrom(state, snapshot.roomId);
    HeardDocuments(state, snapshot, before, live);
    DocumentsInTwo(early + Held(before), live);
    DocumentsInTwo(early, Held(before));
    DocumentsInTwo(early + before, live);
    DocumentsInTwo(early, before);
    DocumentsHeld(before);
    NamesInThree(DocumentsIn(early), DocumentsIn(Held(before)), DocumentsIn(live));
    NamesInThree(DocumentsIn(early), DocumentsIn(before), DocumentsIn(live));
    SameNames(Back(state, snapshot, before, live).documents, state.documents,
              DocumentsIn(early + Held(before) + live), DocumentsIn(early + before + live));
  }

  lemma {:induction false} DocumentsInTwo(p: seq<ServerEvent>, q: seq<ServerEvent>)
    ensures DocumentsIn(p + q) == DocumentsIn(p) + DocumentsIn(q)
    decreases p
  {
    if p == [] {
      assert p + q == q;
    } else {
      TailOfAppend(p, q);
      DocumentsInTwo(p[1..], q);
    }
  }

  /** The lists named, in order. */
  function Names(named: seq<Option<seq<string>>>): seq<seq<string>> {
    if named == [] then [] else (if named[0].Some? then [named[0].value] else []) + Names(named[1..])
  }

  lemma {:induction false} DocumentsHeld(events: seq<ServerEvent>)
    ensures Names(DocumentsIn(Held(events))) == Names(DocumentsIn(events))
    decreases events
  {
    if events != [] {
      var first, rest := events[0], events[1..];
      DocumentsHeld(rest);
      assert DocumentsIn(events) == [DocumentsSaid(first)] + DocumentsIn(rest);
      NamesInTwo([DocumentsSaid(first)], DocumentsIn(rest));
      if HeldUntilSnapshot(first) {
        DocumentsInTwo([first], Held(rest));
        assert DocumentsIn([first]) == [DocumentsSaid(first)] + DocumentsIn([first][1..]);
        NamesInTwo([DocumentsSaid(first)], DocumentsIn(Held(rest)));
      } else {
        assert Held(events) == Held(rest);
        assert Names([DocumentsSaid(first)]) == [] + Names([DocumentsSaid(first)][1..]);
      }
    }
  }

  lemma {:induction false} NamesInThree(p: seq<Option<seq<string>>>, q: seq<Option<seq<string>>>,
                                        r: seq<Option<seq<string>>>)
    ensures Names(p + q + r) == Names(p) + Names(q) + Names(r)
  {
    NamesInTwo(p + q, r);
    NamesInTwo(p, q);
  }

  lemma {:induction false} NamesInTwo(p: seq<Option<seq<string>>>, q: seq<Option<seq<string>>>)
    ensures Names(p + q) == Names(p) + Names(q)
    decreases p
  {
    if p == [] {
      assert p + q == q;
    } else {
      TailOfAppend(p, q);
      NamesInTwo(p[1..], q);
    }
  }

  lemma {:induction false} LastName(named: seq<Option<seq<string>>>)
    ensures Names(named) == [] <==> forall i | 0 <= i < |named| :: named[i].None?
    ensures Names(named) != [] ==> exists i :: 0 <= i < |named| && named[i] == Some(Names(named)[|Names(named)| - 1])
                                               && forall k | i < k < |named| :: named[k].None?
    decreases named
  {
    if named != [] {
      var rest := named[1..];
      LastName(rest);
      forall k | 0 <= k < |rest| ensures rest[k] == named[k + 1] {}
      if Names(rest) != [] {
        var i :| 0 <= i < |rest| && rest[i] == Some(Names(rest)[|Names(rest)| - 1])
                 && forall k | i < k < |rest| :: rest[k].None?;
        assert named[i + 1] == Some(Names(named)[|Names(named)| - 1]);
        forall k | i + 1 < k < |named| ensures named[k].None? {
          assert named[k] == rest[k - 1];
        }
      } else {
        forall k | 0 < k < |named| ensures named[k].None? {
          assert named[k] == rest[k - 1];
        }
      }
    }
  }

  lemma {:induction false} SameNames(now: Option<seq<string>>, was: Option<seq<string>>,
                                     one: seq<Option<seq<string>>>, other: seq<Option<seq<string>>>)
    requires LastNamed(now, was, one) && Names(one) == Names(other)
    ensures LastNamed(now, was, other)
  {
    LastName(one);
    LastName(other);
    var last := if Names(one) == [] then was else Some(Names(one)[|Names(one)| - 1]);
    assert LastNamed(last, was, one);
    OneNamed(now, last, was, one);
  }

  /** The same of what it hears: what was held as long as there was room, and what came after the snapshot. */
  lemma {:induction false} HeardDocuments(state: RoomState, snapshot: ServerEvent, before: seq<ServerEvent>,
                                         live: seq<ServerEvent>)
    requires ComesBack(state, snapshot, before, live)
    ensures LastNamed(Back(state, snapshot, before, live).documents, state.documents,
                      DocumentsIn(HeardBack(state, snapshot.roomId, before, live)))
  {
    var holding := HoldingBack(state, snapshot, before, live);
    HeldAreHeld(before, snapshot.roomId);
    SnapshotKeepsDocuments(holding, snapshot, live);
  }

  /** The client as its snapshot finds it. */
  lemma {:induction false} HoldingBack(state: RoomState, snapshot: ServerEvent, before: seq<ServerEvent>,
                                       live: seq<ServerEvent>)
      returns (holding: RoomState)
    requires ComesBack(state, snapshot, before, live)
    ensures !holding.synced && holding.activeRoomId == Some(snapshot.roomId) && holding.documents == state.documents
    ensures holding.heldEvents == Taken(HeldFrom(state, snapshot.roomId) + Held(before))
    ensures Back(state, snapshot, before, live) == Run(Reduce(holding, FromServer(snapshot)), Arriving(live))
  {
    var roomId := snapshot.roomId;
    var waiting := Reduce(state, RoomRequested(roomId));
    EventsAreHeld(waiting, roomId, before);
    WaitingKeeps(waiting, roomId, before);
    holding := Run(waiting, Arriving(before));
    RunInStages(state, RoomRequested(roomId), Arriving(before), FromServer(snapshot), Arriving(live));
  }

  lemma {:induction false} SnapshotKeepsDocuments(holding: RoomState, snapshot: ServerEvent, live: seq<ServerEvent>)
    requires snapshot.RoomSnapshot? && !holding.synced && holding.activeRoomId == Some(snapshot.roomId)
    requires AllHeldFor(holding.heldEvents, snapshot.roomId) && AllAnnounced(live, snapshot.roomId)
    ensures LastNamed(Run(Reduce(holding, FromServer(snapshot)), Arriving(live)).documents, holding.documents,
                      DocumentsIn(holding.heldEvents + live))
  {
    HeldIsReplayed(holding, snapshot);
    BareSnapshot(holding, snapshot);
    var bare := ApplySnapshot(holding.(heldEvents := []), snapshot);
    assert OfRoom([], snapshot.roomId) == [] && bare.documents == holding.documents;
    HeardIsReplayed(bare, snapshot.roomId, holding.heldEvents, live);
  }

  lemma {:induction false} HeardIsReplayed(bare: RoomState, roomId: string, held: seq<ServerEvent>,
                                           live: seq<ServerEvent>)
    requires IsCurrentRoom(bare, roomId) && AllHeldFor(held, roomId) && AllAnnounced(live, roomId)
    ensures LastNamed(Run(Replay(bare, held), Arriving(live)).documents, bare.documents, DocumentsIn(held + live))
  {
    StaysCurrent(bare, roomId, held);
    LiveIsReplay(Replay(bare, held), roomId, live);
    ReplayAppend(bare, held, live);
    DocumentsReplayed(bare, roomId, held + live);
  }

  /** So a client that moves to a room where no documents are announced keeps the former room's. */
  lemma {:induction false} FormerDocumentsStay(documents: seq<string>)
    ensures var state := Reduce(EmptyRoom("a"), FromServer(RoomSnapshot("a", [], [], [])));
            var there := Reduce(state, FromServer(DocumentsUpdated("a", documents)));
            var moved := Reduce(Reduce(there, RoomRequested("b")), FromServer(RoomSnapshot("b", [], [], [])));
            IsCurrentRoom(moved, "b") && moved.documents == Some(documents)
  {
    assert "a"[0] != "b"[0];
  }

  // ---- who is typing -------------------------------------------------------------------------------

  /** What each event says of someone's typing: their name if they do. Sending a message ends it. */
  function TypingIn(events: seq<ServerEvent>, id: string): seq<Option<Option<string>>> {
    if events == [] then [] else [TypingSaid(events[0], id)] + TypingIn(events[1..], id)
  }

  function TypingSaid(event: ServerEvent, id: string): Option<Option<string>> {
    match event
    case Typing(_, who, displayName, isTyping) =>
      if who == id then Some(if isTyping then Some(displayName) else None) else None
    case ChatPosted(_, message) => if message.participantId == id then Some(None) else None
    case _ => None
  }

  function Typist(state: RoomState, id: string): Option<string> {
    if id in state.typing then Some(state.typing[id]) else None
  }

  /** No message posted is there already. */
  ghost predicate NewPosts(chat: seq<ChatMessage>, events: seq<ServerEvent>) {
    && (forall i | 0 <= i < |events| && events[i].ChatPosted? :: !HasMessage(chat, events[i].message.id))
    && (forall i, j | 0 <= i < j < |events| && events[i].ChatPosted? && events[j].ChatPosted? ::
          events[i].message.id != events[j].message.id)
  }

  /** Anyone else is shown as typing if and only if the last thing heard of it is that they do. */
  lemma {:induction false} TypingShown(state: RoomState, roomId: string, events: seq<ServerEvent>, id: string)
    requires IsCurrentRoom(state, roomId) && AllAnnounced(events, roomId) && NewPosts(state.chat, events)
    requires state.me.Some? ==> state.me.value.id != id
    ensures LastNamed(Some(Typist(Replay(state, events), id)), Some(Typist(state, id)), TypingIn(events, id))
    decreases |events|
  {
    if events != [] {
      var before, last := events[..|events| - 1], events[|events| - 1];
      TypingShown(state, roomId, before, id);
      StaysCurrent(state, roomId, before);
      ReplayOneMore(state, before, last);
      assert events == before + [last];
      TypingInAppend(before, last, id);
      PostsGrow(state, roomId, before);
      var was := Replay(state, before);
      assert last.ChatPosted? ==> !PostedIn(before, last.message.id);
      assert last.ChatPosted? ==> !HasMessage(was.chat, last.message.id);
      TypingStep(was, roomId, last, id);
      NamedMore(Some(Typist(was, id)), Some(Typist(state, id)), TypingIn(before, id), TypingSaid(last, id));
    }
  }

  lemma {:induction false} TypingStep(state: RoomState, roomId: string, event: ServerEvent, id: string)
    requires IsCurrentRoom(state, roomId) && event.roomId == roomId && Announced(event)
    requires event.ChatPosted? ==> !HasMessage(state.chat, event.message.id)
    requires state.me.Some? ==> state.me.value.id != id
    ensures Some(Typist(ApplyToRoom(state, event), id)) == Or(TypingSaid(event, id), Some(Typist(state, id)))
  {
  }

  lemma {:induction false} TypingInAppend(events: seq<ServerEvent>, last: ServerEvent, id: string)
    ensures TypingIn(events + [last], id) == TypingIn(events, id) + [TypingSaid(last, id)]
    decreases events
  {
    if events == [] {
      assert [] + [last] == [last] && TypingIn([last][1..], id) == [];
    } else {
      TailOfAppend(events, [last]);
      TypingInAppend(events[1..], last, id);
    }
  }

  /** A message shown was there, or was posted. */
  lemma {:induction false} PostsGrow(state: RoomState, roomId: string, events: seq<ServerEvent>)
    requires IsCurrentRoom(state, roomId) && AllAnnounced(events, roomId)
    ensures forall x | HasMessage(Replay(state, events).chat, x) :: HasMessage(state.chat, x) || PostedIn(events, x)
    decreases |events|
  {
    if events != [] {
      var before, last := events[..|events| - 1], events[|events| - 1];
      PostsGrow(state, roomId, before);
      StaysCurrent(state, roomId, before);
      ReplayOneMore(state, before, last);
      assert events == before + [last];
      PostsStep(Replay(state, before), roomId, last);
      forall x | PostedIn(before, x) ensures PostedIn(events, x) {
        var i :| 0 <= i < |before| && before[i].ChatPosted? && before[i].message.id == x;
        assert events[i] == before[i];
      }
    }
  }

  lemma {:induction false} PostsStep(state: RoomState, roomId: string, event: ServerEvent)
    requires IsCurrentRoom(state, roomId) && event.roomId == roomId && Announced(event)
    ensures forall x | HasMessage(ApplyToRoom(state, event).chat, x) ::
              HasMessage(state.chat, x) || (event.ChatPosted? && event.message.id == x)
  {
    forall x | HasMessage(ApplyToRoom(state, event).chat, x)
      ensures HasMessage(state.chat, x) || (event.ChatPosted? && event.message.id == x) {
      if event.ChatDeleted? {
        WithoutIsFewer(state.chat, event.messageId, x);
      }
    }
  }

  lemma {:induction false} WithoutIsFewer(chat: seq<ChatMessage>, id: string, x: string)
    requires HasMessage(WithoutMessage(chat, id), x)
    ensures HasMessage(chat, x)
    decreases chat
  {
    if chat != [] && chat[0].id != x {
      var i :| 0 <= i < |WithoutMessage(chat, id)| && WithoutMessage(chat, id)[i].id == x;
      var rest := WithoutMessage(chat[1..], id);
      assert rest[if chat[0].id == id then i else i - 1].id == x;
      WithoutIsFewer(chat[1..], id, x);
      var j :| 0 <= j < |chat[1..]| && chat[1..][j].id == x;
      assert chat[j + 1].id == x;
    }
  }

  /** The client itself is never shown as typing. */
  lemma {:induction false} OwnTypingUnseen(state: RoomState, events: seq<ServerEvent>, id: string)
    requires state.me.Some? && state.me.value.id == id && id !in state.typing
    ensures id !in Replay(state, events).typing
    decreases events
  {
    if events != [] {
      OwnTypingUnseen(ApplyToRoom(state, events[0]), events[1..], id);
    }
  }

  // ---- removed, moved, deleted ---------------------------------------------------------------------

  predicate RemovesMe(me: Option<Participant>, event: ServerEvent) {
    me.Some? && event.ParticipantRemoved? && event.participantId == me.value.id
  }

  lemma {:induction false} ReplayRemoves(state: RoomState, events: seq<ServerEvent>)
    requires forall i | 0 <= i < |events| :: HeldUntilSnapshot(events[i])
    ensures Replay(state, events).removed == state.removed && Replay(state, events).me == state.me
    ensures Replay(state, events).heldEvents == state.heldEvents
    decreases events
  {
    if events != [] {
      ReplayRemoves(ApplyToRoom(state, events[0]), events[1..]);
    }
  }

  lemma {:induction false} OnlyHeld(events: seq<ServerEvent>, roomId: string)
    requires forall i | 0 <= i < |events| :: HeldUntilSnapshot(events[i])
    ensures forall i | 0 <= i < |OfRoom(events, roomId)| :: HeldUntilSnapshot(OfRoom(events, roomId)[i])
  {
    if events != [] {
      OnlyHeld(events[1..], roomId);
    }
  }

  lemma {:induction false} RemovedStep(state: RoomState, action: RoomAction)
    requires forall i | 0 <= i < |state.heldEvents| :: HeldUntilSnapshot(state.heldEvents[i])
    ensures var next := Reduce(state, action);
            && next.me == state.me
            && (forall i | 0 <= i < |next.heldEvents| :: HeldUntilSnapshot(next.heldEvents[i]))
            && (next.removed <==> state.removed || (action.FromServer? && RemovesMe(state.me, action.event)))
  {
    if action.FromServer? && action.event.RoomSnapshot? {
      OnlyHeld(state.heldEvents, action.event.roomId);
      var bare := ApplySnapshot(state.(heldEvents := []), action.event);
      ReplayRemoves(bare, OfRoom(state.heldEvents, action.event.roomId));
    }
  }

  /** Whatever else happens, a client knows that it was removed if and only if it was told so. */
  lemma {:induction false} RemovedIff(state: RoomState, actions: seq<RoomAction>)
    requires forall i | 0 <= i < |state.heldEvents| :: HeldUntilSnapshot(state.heldEvents[i])
    ensures Run(state, actions).removed <==>
              || state.removed
              || exists i :: 0 <= i < |actions| && actions[i].FromServer? && RemovesMe(state.me, actions[i].event)
    decreases actions
  {
    if actions != [] {
      RemovedStep(state, actions[0]);
      RemovedIff(Reduce(state, actions[0]), actions[1..]);
      var rest := actions[1..];
      if i :| 0 <= i < |actions| && actions[i].FromServer? && RemovesMe(state.me, actions[i].event) {
        assert i > 0 ==> rest[i - 1] == actions[i];
      }
      if i :| 0 <= i < |rest| && rest[i].FromServer? && RemovesMe(state.me, rest[i].event) {
        assert actions[i + 1] == rest[i];
      }
    }
  }

  /** None of the events is a room's snapshot. */
  predicate NoSnapshot(events: seq<ServerEvent>) { forall i | 0 <= i < |events| :: !events[i].RoomSnapshot? }

  lemma {:induction false} NothingMeanwhile(state: RoomState, events: seq<ServerEvent>)
    requires !state.synced && state.chat == [] && state.media == [] && NoSnapshot(events)
    ensures var after := Run(state, Arriving(events));
            && !after.synced && after.chat == [] && after.media == [] && after.typing == state.typing
            && after.activeRoomId == state.activeRoomId && after.loadedRoomId == state.loadedRoomId
            && (state.participants == [] ==> after.participants == [])
    decreases events
  {
    if events != [] {
      assert Arriving(events)[1..] == Arriving(events[1..]);
      NothingMeanwhile(Reduce(state, FromServer(events[0])), events[1..]);
    }
  }

  /** Moving to another room shows nothing of the former one, nor of the new one until its snapshot comes. */
  lemma {:induction false} MovedShowsNothing(state: RoomState, roomId: string, events: seq<ServerEvent>)
    requires state.activeRoomId != Some(roomId) && NoSnapshot(events)
    ensures var after := Run(Reduce(state, RoomRequested(roomId)), Arriving(events));
            && after.activeRoomId == Some(roomId) && !after.synced
            && (state.loadedRoomId != Some(roomId) ==> after.loadedRoomId == None)
            && after.participants == [] && after.chat == [] && after.media == [] && after.typing == map[]
  {
    NothingMeanwhile(Reduce(state, RoomRequested(roomId)), events);
  }

  /** Asking again for the room one is in keeps it in view, as it was. */
  lemma {:induction false} RejoiningKeepsView(state: RoomState, roomId: string)
    requires state.activeRoomId == Some(roomId)
    ensures var after := Reduce(state, RoomRequested(roomId));
            && after.participants == state.participants && after.chat == state.chat && after.media == state.media
            && after.typing == state.typing && after.heldEvents == state.heldEvents && after.synced == state.synced
  {
  }

  /** A lost connection leaves the view as it was, and what was held; only nobody is shown as typing any more. */
  lemma {:induction false} LostKeepsView(state: RoomState, roomId: string)
    requires state.activeRoomId == Some(roomId)
    ensures Reduce(state, ConnectionLost) == state.(synced := false, typing := map[])
    ensures Reduce(Reduce(state, ConnectionLost), RoomRequested(roomId)).heldEvents == state.heldEvents
  {
  }

  /** Whoever is removed is not shown any more, whichever room the client is in or on its way to. */
  lemma {:induction false} RemovedIsGone(state: RoomState, roomId: string, id: string)
    requires state.me.Some? ==> state.me.value.id != id
    ensures var after := Reduce(state, FromServer(ParticipantRemoved(roomId, id)));
            forall p :: p in after.participants <==> p in state.participants && p.id != id
  {
    OthersStay(state.participants, id);
  }

  lemma {:induction false} OthersStay(list: seq<Participant>, id: string)
    ensures forall p :: p in WithoutParticipant(list, id) <==> p in list && p.id != id
    decreases list
  {
    if list != [] {
      OthersStay(list[1..], id);
      assert list == [list[0]] + list[1..];
    }
  }

  /** Nothing of a deleted room's chat and feed is shown, whatever comes, until there is a snapshot of another. */
  lemma {:induction false} DeletedShowsNothing(state: RoomState, roomId: string, events: seq<ServerEvent>)
    requires IsCurrentRoom(state, roomId) && NoSnapshot(events)
    ensures var after := Run(Reduce(state, FromServer(RoomDeleted(roomId))), Arriving(events));
            !after.synced && after.loadedRoomId == None && after.chat == [] && after.media == []
  {
    NothingMeanwhile(Reduce(state, FromServer(RoomDeleted(roomId))), events);
  }

  lemma {:induction false} ReplayLoads(state: RoomState, events: seq<ServerEvent>)
    ensures var after := Replay(state, events);
            after.activeRoomId == state.activeRoomId && (after.loadedRoomId == state.loadedRoomId
                                                         || after.loadedRoomId == None)
    decreases events
  {
    if events != [] {
      ReplayLoads(ApplyToRoom(state, events[0]), events[1..]);
    }
  }

  /** The room whose contents are loaded is the one the client is in or on its way to, or there is none. */
  lemma {:induction false} LoadedIsActive(state: RoomState, actions: seq<RoomAction>)
    requires state.loadedRoomId.Some? ==> state.loadedRoomId == state.activeRoomId
    ensures Run(state, actions).loadedRoomId.Some? ==>
              Run(state, actions).loadedRoomId == Run(state, actions).activeRoomId
    decreases actions
  {
    if actions != [] {
      if actions[0].FromServer? && actions[0].event.RoomSnapshot? {
        var event := actions[0].event;
        ReplayLoads(ApplySnapshot(state.(heldEvents := []), event), OfRoom(state.heldEvents, event.roomId));
      }
      LoadedIsActive(Reduce(state, actions[0]), actions[1..]);
    }
  }

  // ---- what is held --------------------------------------------------------------------------------

  /** What a client holds is of the room it is on its way to, and waits for that room's snapshot. */
  ghost predicate HoldsOwn(state: RoomState) {
    forall i | 0 <= i < |state.heldEvents| ::
      Some(state.heldEvents[i].roomId) == state.activeRoomId && HeldUntilSnapshot(state.heldEvents[i])
  }

  lemma {:induction false} HeldAreOwn(state: RoomState, actions: seq<RoomAction>)
    requires HoldsOwn(state)
    ensures HoldsOwn(Run(state, actions))
    decreases actions
  {
    if actions != [] {
      if actions[0].FromServer? && actions[0].event.RoomSnapshot? {
        var event := actions[0].event;
        OnlyHeld(state.heldEvents, event.roomId);
        ReplayRemoves(ApplySnapshot(state.(heldEvents := []), event), OfRoom(state.heldEvents, event.roomId));
      }
      HeldAreOwn(Reduce(state, actions[0]), actions[1..]);
    }
  }
}
