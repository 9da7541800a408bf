/** The chat and the media feed as lists: the order of their ids, and the entry under each id. */
module RoomLists {
  import opened Jobs
  import opened Options
  import opened Sorting
  import opened RoomReducer
  import opened JobReplay
  import opened ReplayLists
  import opened EntryReplay

  function ChatRun(chat: seq<ChatMessage>, events: seq<ServerEvent>): seq<ChatMessage>
    decreases events
  {
    if events == [] then chat else ChatRun(ChatAfter(chat, events[0]), events[1..])
  }

  function MediaRun(media: seq<Entry>, events: seq<ServerEvent>): seq<Entry>
    decreases events
  {
    if events == [] then media else MediaRun(MediaAfter(media, events[0]), events[1..])
  }

  // ---- chat --------------------------------------------------------------------------------

  function ChatIds(chat: seq<ChatMessage>): seq<string> { seq(|chat|, i requires 0 <= i < |chat| => chat[i].id) }

  function ChatIdEvent(event: ServerEvent): IdEvent {
    match event
    case ChatPosted(_, message) => Add(message.id)
    case ChatDeleted(_, id) => Remove(id)
    case _ => NoChange
  }

  function ChatIdEvents(events: seq<ServerEvent>): seq<IdEvent> {
    seq(|events|, i requires 0 <= i < |events| => ChatIdEvent(events[i]))
  }

  function FindMessage(chat: seq<ChatMessage>, id: string): Option<ChatMessage> {
    if chat == [] then None else if chat[0].id == id then Some(chat[0]) else FindMessage(chat[1..], id)
  }

  function MessageStep(v: Option<ChatMessage>, event: ServerEvent, x: string): Option<ChatMessage> {
    match event
    case ChatPosted(_, message) => if message.id == x && v.None? then Some(message) else v
    case ChatDeleted(_, id) => if id == x then None else v
    case _ => v
  }

  function MessageRun(v: Option<ChatMessage>, events: seq<ServerEvent>, x: string): Option<ChatMessage>
    decreases events
  {
    if events == [] then v else MessageRun(MessageStep(v, events[0], x), events[1..], x)
  }

  lemma {:induction false} MessageFound(chat: seq<ChatMessage>, id: string)
    ensures HasMessage(chat, id) <==> id in ChatIds(chat)
    ensures HasMessage(chat, id) <==> FindMessage(chat, id).Some?
  {
    if chat != [] {
      MessageFound(chat[1..], id);
      assert ChatIds(chat) == [chat[0].id] + ChatIds(chat[1..]);
      if HasMessage(chat[1..], id) {
        var i :| 0 <= i < |chat[1..]| && chat[1..][i].id == id;
        assert chat[i + 1].id == id;
      }
      if i :| 0 <= i < |chat| && chat[i].id == id {
        if i > 0 { assert chat[1..][i - 1].id == id; } else { assert chat[0].id == id; }
      }
    }
  }

  lemma {:induction false} WithoutMessageFacts(chat: seq<ChatMessage>, id: string, x: string)
    ensures ChatIds(WithoutMessage(chat, id)) == Without(ChatIds(chat), id)
    ensures FindMessage(WithoutMessage(chat, id), x) == if x == id then None else FindMessage(chat, x)
  {
    if chat != [] {
      WithoutMessageFacts(chat[1..], id, x);
      var rest := WithoutMessage(chat[1..], id);
      assert ChatIds(chat) == [chat[0].id] + ChatIds(chat[1..]);
      if chat[0].id == id {
        assert WithoutMessage(chat, id) == rest;
      } else {
        assert WithoutMessage(chat, id) == [chat[0]] + rest;
        assert ChatIds([chat[0]] + rest) == [chat[0].id] + ChatIds(rest);
      }
    }
  }

  lemma {:induction false} FindAppended(chat: seq<ChatMessage>, message: ChatMessage, x: string)
    ensures FindMessage(chat + [message], x)
         == if FindMessage(chat, x).Some? then FindMessage(chat, x) else if message.id == x then Some(message) else None
  {
    if chat == [] {
      assert chat + [message] == [message];
    } else {
      FindAppended(chat[1..], message, x);
      assert (chat + [message])[1..] == chat[1..] + [message];
    }
  }

  lemma {:induction false} ChatStepFacts(chat: seq<ChatMessage>, event: ServerEvent, x: string)
    ensures ChatIds(ChatAfter(chat, event)) == IdStep(false, ChatIds(chat), ChatIdEvent(event))
    ensures FindMessage(ChatAfter(chat, event), x) == MessageStep(FindMessage(chat, x), event, x)
  {
    match event
    case ChatPosted(_, message) =>
      MessageFound(chat, message.id);
      MessageFound(chat, x);
      if !HasMessage(chat, message.id) {
        FindAppended(chat, message, x);
        assert ChatIds(chat + [message]) == ChatIds(chat) + [message.id];
      }
    case ChatDeleted(_, id) => WithoutMessageFacts(chat, id, x);
    case _ =>
  }

  lemma {:induction false} ChatRunFacts(chat: seq<ChatMessage>, events: seq<ServerEvent>, x: string)
    ensures ChatIds(ChatRun(chat, events)) == IdRun(false, ChatIds(chat), ChatIdEvents(events))
    ensures FindMessage(ChatRun(chat, events), x) == MessageRun(FindMessage(chat, x), events, x)
    decreases events
  {
    if events != [] {
      ChatStepFacts(chat, events[0], x);
      ChatRunFacts(ChatAfter(chat, events[0]), events[1..], x);
      assert ChatIdEvents(events)[1..] == ChatIdEvents(events[1..]);
    }
  }

  lemma {:induction false} ReplayedMessage(v: Option<ChatMessage>, events: seq<ServerEvent>, x: string)
    requires NoReuse(ChatIdEvents(events))
    ensures MessageRun(MessageRun(v, events, x), events, x) == MessageRun(v, events, x)
  {
    if i :| 0 <= i < |events| && events[i].ChatDeleted? && events[i].messageId == x {
      DeletedMessage(v, events, x, i);
      DeletedMessage(None, events, x, i);
    } else {
      KeptMessage(v, events, x);
      KeptMessage(MessageRun(v, events, x), events, x);
    }
  }

  lemma {:induction false} DeletedMessage(v: Option<ChatMessage>, events: seq<ServerEvent>, x: string, i: nat)
    requires NoReuse(ChatIdEvents(events)) && i < |events| && events[i].ChatDeleted? && events[i].messageId == x
    ensures MessageRun(v, events, x) == None
    decreases events
  {
    var rest := events[1..];
    assert ChatIdEvents(events)[1..] == ChatIdEvents(rest);
    if i == 0 {
      forall j | 0 <= j < |rest| && rest[j].ChatPosted? ensures rest[j].message.id != x {
        assert ChatIdEvents(events)[0] == Remove(x) && ChatIdEvents(events)[j + 1] == Add(rest[j].message.id);
      }
      NeverPosted(rest, x);
    } else {
      assert rest[i - 1] == events[i];
      DeletedMessage(MessageStep(v, events[0], x), rest, x, i - 1);
    }
  }

  lemma {:induction false} NeverPosted(events: seq<ServerEvent>, x: string)
    requires forall j | 0 <= j < |events| && events[j].ChatPosted? :: events[j].message.id != x
    ensures MessageRun(None, events, x) == None
    decreases events
  {
    if events != [] {
      NeverPosted(events[1..], x);
    }
  }

  lemma {:induction false} KeptMessage(v: Option<ChatMessage>, events: seq<ServerEvent>, x: string)
    requires forall j | 0 <= j < |events| && events[j].ChatDeleted? :: events[j].messageId != x
    ensures v.Some? ==> MessageRun(v, events, x) == v
    ensures MessageRun(v, events, x) == None ==>
              forall j | 0 <= j < |events| && events[j].ChatPosted? :: events[j].message.id != x
    ensures MessageRun(v, events, x) == None ==> v == None
    decreases events
  {
    if events != [] {
      KeptMessage(MessageStep(v, events[0], x), events[1..], x);
      if MessageRun(v, events, x) == None {
        forall j | 0 <= j < |events| && events[j].ChatPosted? ensures events[j].message.id != x {
          if j > 0 { assert events[1..][j - 1] == events[j]; }
        }
      }
    }
  }

  /** A chat is its ids in order and the message under each. */
  lemma {:induction false} SameChat(a: seq<ChatMessage>, b: seq<ChatMessage>)
    requires ChatIds(a) == ChatIds(b) && Distinct(ChatIds(a))
    requires forall x :: FindMessage(a, x) == FindMessage(b, x)
    ensures a == b
  {
    forall i | 0 <= i < |a| ensures a[i] == b[i] {
      FindAt(a, i);
      FindAt(b, i);
      assert ChatIds(a)[i] == ChatIds(b)[i];
      assert FindMessage(a, a[i].id) == FindMessage(b, a[i].id);
    }
    assert |ChatIds(a)| == |a| && |ChatIds(b)| == |b|;
  }

  lemma {:induction false} FindAt(chat: seq<ChatMessage>, i: nat)
    requires i < |chat| && Distinct(ChatIds(chat))
    ensures FindMessage(chat, chat[i].id) == Some(chat[i])
  {
    if i > 0 {
      assert ChatIds(chat)[0] != ChatIds(chat)[i];
      assert ChatIds(chat)[1..] == ChatIds(chat[1..]);
      FindAt(chat[1..], i - 1);
    }
  }

  lemma {:induction false} IdsStayDistinct(front: bool, ids: seq<string>, events: seq<IdEvent>)
    requires Distinct(ids)
    ensures Distinct(IdRun(front, ids, events))
    decreases events
  {
    if events != [] {
      if events[0].Remove? {
        WithoutDistinct(ids, events[0].id);
      }
      IdsStayDistinct(front, IdStep(front, ids, events[0]), events[1..]);
    }
  }

  lemma {:induction false} WithoutDistinct(ids: seq<string>, id: string)
    requires Distinct(ids)
    ensures Distinct(Without(ids, id))
  {
    if ids != [] {
      WithoutDistinct(ids[1..], id);
      WithoutMembers(ids[1..], id);
      var rest := Without(ids[1..], id);
      forall j | 0 <= j < |rest| ensures rest[j] != ids[0] {
        assert rest[j] in rest;
        assert rest[j] in ids[1..];
      }
    }
  }

  /** The chat, replayed on itself, is itself: same messages, same order. */
  lemma {:induction false} ReplayedChat(chat: seq<ChatMessage>, events: seq<ServerEvent>)
    requires Distinct(ChatIds(chat)) && NoReuse(ChatIdEvents(events))
    ensures ChatRun(ChatRun(chat, events), events) == ChatRun(chat, events)
  {
    var once := ChatRun(chat, events);
    var twice := ChatRun(once, events);
    ChatRunFacts(chat, events, "");
    ChatRunFacts(once, events, "");
    ReplayedIds(false, ChatIds(chat), [], ChatIdEvents(events));
    assert Beside(false, [], ChatIds(once)) == ChatIds(once);
    IdsStayDistinct(false, ChatIds(chat), ChatIdEvents(events));
    forall x ensures FindMessage(twice, x) == FindMessage(once, x) {
      ChatRunFacts(chat, events, x);
      ChatRunFacts(once, events, x);
      ReplayedMessage(FindMessage(chat, x), events, x);
    }
    SameChat(twice, once);
  }

  // ---- media -------------------------------------------------------------------------------

  function MediaIds(media: seq<Entry>): seq<string> {
    seq(|media|, i requires 0 <= i < |media| => media[i].mediaItem.id)
  }

  function MediaIdEvent(event: ServerEvent): IdEvent {
    match event
    case MediaUploaded(_, item, _) => Add(item.id)
    case MediaDeleted(_, id) => Remove(id)
    case _ => NoChange
  }

  function MediaIdEvents(events: seq<ServerEvent>): seq<IdEvent> {
    seq(|events|, i requires 0 <= i < |events| => MediaIdEvent(events[i]))
  }

  function FindEntry(media: seq<Entry>, id: string): Option<Entry> {
    if media == [] then None else if media[0].mediaItem.id == id then Some(media[0]) else FindEntry(media[1..], id)
  }

  lemma {:induction false} EntryFound(media: seq<Entry>, id: string)
    ensures HasEntry(media, id) <==> id in MediaIds(media)
    ensures HasEntry(media, id) <==> FindEntry(media, id).Some?
  {
    if media != [] {
      EntryFound(media[1..], id);
      assert MediaIds(media) == [media[0].mediaItem.id] + MediaIds(media[1..]);
      if HasEntry(media[1..], id) {
        var i :| 0 <= i < |media[1..]| && media[1..][i].mediaItem.id == id;
        assert media[i + 1].mediaItem.id == id;
      }
      if i :| 0 <= i < |media| && media[i].mediaItem.id == id {
        if i > 0 { assert media[1..][i - 1].mediaItem.id == id; } else { assert media[0].mediaItem.id == id; }
      }
    }
  }

  lemma {:induction false} WithoutEntryFacts(media: seq<Entry>, id: string, x: string)
    ensures MediaIds(WithoutEntry(media, id)) == Without(MediaIds(media), id)
    ensures FindEntry(WithoutEntry(media, id), x) == if x == id then None else FindEntry(media, x)
  {
    if media != [] {
      WithoutEntryFacts(media[1..], id, x);
      var rest := WithoutEntry(media[1..], id);
      assert MediaIds(media) == [media[0].mediaItem.id] + MediaIds(media[1..]);
      if media[0].mediaItem.id == id {
        assert WithoutEntry(media, id) == rest;
      } else {
        assert WithoutEntry(media, id) == [media[0]] + rest;
        assert MediaIds([media[0]] + rest) == [media[0].mediaItem.id] + MediaIds(rest);
      }
    }
  }

  lemma {:induction false} UpdatedFacts(media: seq<Entry>, item: MediaItem, job: Option<EnhancementJob>, x: string)
    ensures MediaIds(UpdatedEntries(media, item, job)) == MediaIds(media)
    ensures FindEntry(UpdatedEntries(media, item, job), x)
         == if x == item.id && FindEntry(media, x).Some? then Some(Entry(item, Or(job, FindEntry(media, x).value.job)))
            else FindEntry(media, x)
  {
    if media != [] {
      UpdatedFacts(media[1..], item, job, x);
      assert MediaIds(media) == [media[0].mediaItem.id] + MediaIds(media[1..]);
      var updated := UpdatedEntries(media, item, job);
      assert updated == [updated[0]] + UpdatedEntries(media[1..], item, job);
      assert MediaIds(updated) == [updated[0].mediaItem.id] + MediaIds(UpdatedEntries(media[1..], item, job));
    }
  }

  lemma {:induction false} PatchFacts(media: seq<Entry>, id: string, event: ServerEvent, x: string)
    requires ForJob(event, id)
    ensures MediaIds(PatchJob(media, id, event)) == MediaIds(media)
    ensures FindEntry(PatchJob(media, id, event), x) == EntryStep(FindEntry(media, x), event, x)
  {
    if media != [] {
      if media[0].mediaItem.id != id {
        PatchFacts(media[1..], id, event, x);
        var patched := PatchJob(media, id, event);
        assert MediaIds(media) == [media[0].mediaItem.id] + MediaIds(media[1..]);
        assert patched == [media[0]] + PatchJob(media[1..], id, event);
        assert MediaIds(patched) == [media[0].mediaItem.id] + MediaIds(PatchJob(media[1..], id, event));
      }
    }
  }

  lemma {:induction false} MediaStepFacts(media: seq<Entry>, event: ServerEvent, x: string)
    ensures MediaIds(MediaAfter(media, event)) == IdStep(true, MediaIds(media), MediaIdEvent(event))
    ensures FindEntry(MediaAfter(media, event), x) == EntryStep(FindEntry(media, x), event, x)
  {
    match event
    case MediaUploaded(_, item, job) =>
      EntryFound(media, item.id);
      EntryFound(media, x);
      var entry := Entry(item, Some(job));
      assert MediaIds([entry] + media) == [item.id] + MediaIds(media);
    case MediaUpdated(_, item, job) => UpdatedFacts(media, item, job, x);
    case MediaDeleted(_, id) => WithoutEntryFacts(media, id, x);
    case JobStatusUpdate(_, _, id, _, _, _) => PatchFacts(media, id, event, x);
    case JobComplete(_, _, id, _, _, _, _) => PatchFacts(media, id, event, x);
    case _ =>
  }

  lemma {:induction false} MediaRunFacts(media: seq<Entry>, events: seq<ServerEvent>, x: string)
    ensures MediaIds(MediaRun(media, events)) == IdRun(true, MediaIds(media), MediaIdEvents(events))
    ensures FindEntry(MediaRun(media, events), x) == EntryRun(FindEntry(media, x), events, x)
    decreases events
  {
    if events != [] {
      MediaStepFacts(media, events[0], x);
      MediaRunFacts(MediaAfter(media, events[0]), events[1..], x);
      assert MediaIdEvents(events)[1..] == MediaIdEvents(events[1..]);
    }
  }

  lemma {:induction false} SameMedia(a: seq<Entry>, b: seq<Entry>)
    requires MediaIds(a) == MediaIds(b) && Distinct(MediaIds(a))
    requires forall x :: FindEntry(a, x) == FindEntry(b, x)
    ensures a == b
  {
    forall i | 0 <= i < |a| ensures a[i] == b[i] {
      FindEntryAt(a, i);
      FindEntryAt(b, i);
      assert MediaIds(a)[i] == MediaIds(b)[i];
      assert FindEntry(a, a[i].mediaItem.id) == FindEntry(b, a[i].mediaItem.id);
    }
    assert |MediaIds(a)| == |a| && |MediaIds(b)| == |b|;
  }

  lemma {:induction false} FindEntryAt(media: seq<Entry>, i: nat)
    requires i < |media| && Distinct(MediaIds(media))
    ensures FindEntry(media, media[i].mediaItem.id) == Some(media[i])
  {
    if i > 0 {
      assert MediaIds(media)[0] != MediaIds(media)[i];
      assert MediaIds(media)[1..] == MediaIds(media[1..]);
      FindEntryAt(media[1..], i - 1);
    }
  }

  lemma {:induction false} OrderlyNoReuse(life: Life, events: seq<ServerEvent>, x: string, i: nat, j: nat)
    requires Orderly(life, events, x) && i < j < |events| && Deletes(events[i], x)
    requires events[j].MediaUploaded?
    ensures events[j].mediaItem.id != x
    decreases events
  {
    if i > 0 {
      OrderlyNoReuse(LifeStep(life, events[0], x), events[1..], x, i - 1, j - 1);
    } else {
      GoneNoUpload(events[1..], x, j - 1);
    }
  }

  lemma {:induction false} GoneNoUpload(events: seq<ServerEvent>, x: string, j: nat)
    requires Orderly(Gone, events, x) && j < |events| && events[j].MediaUploaded?
    ensures events[j].mediaItem.id != x
    decreases events
  {
    if j > 0 {
      GoneNoUpload(events[1..], x, j - 1);
    }
  }

  /** The feed, replayed on itself, is itself: same items and jobs, same order. */
  lemma {:induction false} ReplayedMedia(media: seq<Entry>, events: seq<ServerEvent>, lives: string -> Life)
    requires Distinct(MediaIds(media))
    requires forall x :: Orderly(lives(x), events, x) && Shown(lives(x)) == FindEntry(media, x)
    ensures MediaRun(MediaRun(media, events), events) == MediaRun(media, events)
  {
    var once := MediaRun(media, events);
    var twice := MediaRun(once, events);
    MediaRunFacts(media, events, "");
    MediaRunFacts(once, events, "");
    var idEvents := MediaIdEvents(events);
    forall i, j | 0 <= i < j < |idEvents| && idEvents[i].Remove? && idEvents[j].Add?
      ensures idEvents[i].id != idEvents[j].id {
      assert Orderly(lives(idEvents[i].id), events, idEvents[i].id);
      OrderlyNoReuse(lives(idEvents[i].id), events, idEvents[i].id, i, j);
    }
    ReplayedIds(true, MediaIds(media), [], idEvents);
    assert Beside(true, [], MediaIds(once)) == MediaIds(once);
    IdsStayDistinct(true, MediaIds(media), idEvents);
    forall x ensures FindEntry(twice, x) == FindEntry(once, x) {
      MediaRunFacts(media, events, x);
      MediaRunFacts(once, events, x);
      assert Orderly(lives(x), events, x);
      ReplayedEntry(lives(x), events, x);
    }
    SameMedia(twice, once);
  }
}
