/**
 * The client's view of a room (client/src/state/roomReducer.ts): what each server event does to it, and how events
 * that arrive before the room's snapshot are held and replayed on it. Wall-clock fields are left out.
 */
module RoomReducer {
  import opened Jobs
  import opened Options
  import opened Sorting

  /** A JavaScript number, which may be infinite or not a number at all. */
  datatype Number = Finite(value: real) | NotFinite

  type RunningStatus = s: Status | s.Queued? || s.Processing? witness Queued
  type FinalStatus = s: Status | s.Done? || s.Failed? witness Done

  datatype Participant = Participant(id: string, displayName: string, color: string)
  datatype ChatMessage = ChatMessage(id: string, participantId: string, createdAt: int, body: string)
  datatype MediaItem = MediaItem(id: string, createdAt: int, title: Option<string>, uploaderName: string)

  /** `strategy` stands for every field of a job that no event but a new job changes. */
  datatype EnhancementJob = EnhancementJob(id: string, status: Status, progress: real, message: Option<string>,
                                           artifacts: seq<string>, error: Option<string>, strategy: string)
  datatype Entry = Entry(mediaItem: MediaItem, job: Option<EnhancementJob>)

  datatype ServerEvent =
    | RoomSnapshot(roomId: string, participants: seq<Participant>, chatHistory: seq<ChatMessage>, media: seq<Entry>)
    | ParticipantJoined(roomId: string, participant: Participant)
    | ParticipantLeft(roomId: string, participantId: string)
    | ParticipantRemoved(roomId: string, participantId: string)
    | ChatPosted(roomId: string, message: ChatMessage)
    | ChatDeleted(roomId: string, messageId: string)
    | MediaUploaded(roomId: string, mediaItem: MediaItem, newJob: EnhancementJob)
    | MediaUpdated(roomId: string, mediaItem: MediaItem, job: Option<EnhancementJob>)
    | MediaDeleted(roomId: string, mediaItemId: string)
    | JobStatusUpdate(roomId: string, jobId: string, mediaItemId: string, running: RunningStatus, reported: Number,
                      note: Option<string>)
    | JobComplete(roomId: string, jobId: string, mediaItemId: string, outcome: FinalStatus, artifacts: seq<string>,
                  note: Option<string>, error: Option<string>)
    | DocumentsUpdated(roomId: string, documents: seq<string>)
    | Typing(roomId: string, participantId: string, displayName: string, isTyping: bool)
    | RoomDeleted(roomId: string)

  datatype RoomState = RoomState(
    me: Option<Participant>, activeRoomId: Option<string>, synced: bool, loadedRoomId: Option<string>,
    heldEvents: seq<ServerEvent>, participants: seq<Participant>, chat: seq<ChatMessage>, media: seq<Entry>,
    typing: map<string, string>, documents: Option<seq<string>>, removed: bool)

  datatype RoomAction = FromServer(event: ServerEvent) | RoomRequested(roomId: string) | ConnectionLost

  const MAX_HELD := 500

  // ---- what one event does to each list ------------------------------------------------

  function UpsertParticipant(list: seq<Participant>, participant: Participant): seq<Participant> {
    if list == [] then [participant]
    else if list[0].id == participant.id then [participant] + list[1..]
    else [list[0]] + UpsertParticipant(list[1..], participant)
  }

  function WithoutParticipant(list: seq<Participant>, id: string): seq<Participant> {
    if list == [] then []
    else (if list[0].id == id then [] else [list[0]]) + WithoutParticipant(list[1..], id)
  }

  function WithoutMessage(list: seq<ChatMessage>, id: string): seq<ChatMessage> {
    if list == [] then []
    else (if list[0].id == id then [] else [list[0]]) + WithoutMessage(list[1..], id)
  }

  function WithoutEntry(list: seq<Entry>, id: string): seq<Entry> {
    if list == [] then []
    else (if list[0].mediaItem.id == id then [] else [list[0]]) + WithoutEntry(list[1..], id)
  }

  predicate HasMessage(list: seq<ChatMessage>, id: string) { exists i | 0 <= i < |list| :: list[i].id == id }
  predicate HasEntry(list: seq<Entry>, id: string) { exists i | 0 <= i < |list| :: list[i].mediaItem.id == id }

  function Clamp01(value: Number): (r: real)
    ensures 0.0 <= r <= 1.0
    ensures value.NotFinite? ==> r == 0.0
    ensures value.Finite? && 0.0 <= value.value <= 1.0 ==> r == value.value
    ensures value.Finite? && value.value > 1.0 ==> r == 1.0
    ensures value.Finite? && value.value < 0.0 ==> r == 0.0
  {
    match value
    case NotFinite => 0.0
    case Finite(v) => if v < 0.0 then 0.0 else if v > 1.0 then 1.0 else v
  }

  function Stage(status: Status): nat { match status case Queued => 0 case Processing => 1 case _ => 2 }

  /** An update older than what is shown, for the same run of the job. */
  predicate IsStale(job: EnhancementJob, jobId: string, status: Status, progress: Number) {
    job.id == jobId
    && (Terminal(job.status)
        || Stage(status) < Stage(job.status)
        || (Stage(status) == Stage(job.status) && Clamp01(progress) < job.progress))
  }

  /** What a status update or a completion does to the job it is addressed to. */
  function PatchedJob(job: EnhancementJob, event: ServerEvent): EnhancementJob {
    match event
    case JobStatusUpdate(_, jobId, _, running, reported, note) =>
      if IsStale(job, jobId, running, reported) then job
      else job.(id := jobId, status := running, progress := Clamp01(reported), message := Or(note, job.message))
    case JobComplete(_, jobId, _, outcome, artifacts, note, error) =>
      job.(id := jobId, status := outcome,
           progress := if outcome.Done? then 1.0 else job.progress,
           artifacts := if |artifacts| > 0 then artifacts else job.artifacts,
           message := Or(note, job.message),
           error := Or(error, if outcome.Failed? then job.error else None))
    case _ => job
  }

  /** `patchJob`: only the first entry with that id, and only when it has a job. */
  function PatchJob(media: seq<Entry>, mediaItemId: string, event: ServerEvent): seq<Entry> {
    if media == [] then []
    else if media[0].mediaItem.id == mediaItemId then
      [if media[0].job.Some? then media[0].(job := Some(PatchedJob(media[0].job.value, event))) else media[0]]
          + media[1..]
    else [media[0]] + PatchJob(media[1..], mediaItemId, event)
  }

  function UpdatedEntries(media: seq<Entry>, item: MediaItem, job: Option<EnhancementJob>): seq<Entry> {
    if media == [] then []
    else [if media[0].mediaItem.id == item.id then Entry(item, Or(job, media[0].job)) else media[0]]
         + UpdatedEntries(media[1..], item, job)
  }

  function ParticipantsAfter(list: seq<Participant>, event: ServerEvent): seq<Participant> {
    match event
    case ParticipantJoined(_, participant) => UpsertParticipant(list, participant)
    case ParticipantLeft(_, id) => WithoutParticipant(list, id)
    case _ => list
  }

  function ChatAfter(chat: seq<ChatMessage>, event: ServerEvent): seq<ChatMessage> {
    match event
    case ChatPosted(_, message) => if HasMessage(chat, message.id) then chat else chat + [message]
    case ChatDeleted(_, id) => WithoutMessage(chat, id)
    case _ => chat
  }

  function MediaAfter(media: seq<Entry>, event: ServerEvent): seq<Entry> {
    match event
    case MediaUploaded(_, item, job) => if HasEntry(media, item.id) then media else [Entry(item, Some(job))] + media
    case MediaUpdated(_, item, job) => UpdatedEntries(media, item, job)
    case MediaDeleted(_, id) => WithoutEntry(media, id)
    case JobStatusUpdate(_, _, id, _, _, _) => PatchJob(media, id, event)
    case JobComplete(_, _, id, _, _, _, _) => PatchJob(media, id, event)
    case _ => media
  }

  // ---- the reducer ----------------------------------------------------------------------

  predicate HeldUntilSnapshot(event: ServerEvent) {
    || event.ParticipantJoined? || event.ParticipantLeft? || event.ChatPosted? || event.ChatDeleted?
    || event.MediaUploaded? || event.MediaUpdated? || event.MediaDeleted?
    || event.JobStatusUpdate? || event.JobComplete? || event.DocumentsUpdated?
  }

  predicate IsCurrentRoom(state: RoomState, roomId: string) {
    state.synced && state.activeRoomId == Some(roomId)
  }

  /** Every event but the snapshot. */
  function ApplyToRoom(state: RoomState, event: ServerEvent): RoomState {
    match event
    case ParticipantRemoved(_, id) =>
      if state.me.Some? && state.me.value.id == id then state.(removed := true)
      else state.(participants := WithoutParticipant(state.participants, id))
    case _ =>
      if !IsCurrentRoom(state, event.roomId) then state
      else match event
        case ParticipantJoined(_, _) => state.(participants := ParticipantsAfter(state.participants, event))
        case ParticipantLeft(_, _) => state.(participants := ParticipantsAfter(state.participants, event))
        case ChatPosted(_, message) =>
          if HasMessage(state.chat, message.id) then state
          else state.(chat := ChatAfter(state.chat, event), typing := state.typing - {message.participantId})
        case ChatDeleted(_, _) => state.(chat := ChatAfter(state.chat, event))
        case Typing(_, id, displayName, isTyping) =>
          if state.me.Some? && state.me.value.id == id then state
          else state.(typing := if isTyping then state.typing[id := displayName] else state.typing - {id})
        case DocumentsUpdated(_, documents) => state.(documents := Some(documents))
        case RoomDeleted(_) => state.(media := [], chat := [], synced := false, loadedRoomId := None)
        case _ => state.(media := MediaAfter(state.media, event))
  }

  function OlderMessage(): (ChatMessage, ChatMessage) -> bool {
    (a: ChatMessage, b: ChatMessage) => a.createdAt < b.createdAt
  }
  function NewerEntry(): (Entry, Entry) -> bool {
    (a: Entry, b: Entry) => b.mediaItem.createdAt < a.mediaItem.createdAt
  }

  function OfRoom(events: seq<ServerEvent>, roomId: string): seq<ServerEvent> {
    if events == [] then []
    else (if events[0].roomId == roomId then [events[0]] else []) + OfRoom(events[1..], roomId)
  }

  function Replay(state: RoomState, events: seq<ServerEvent>): RoomState
    decreases events
  {
    if events == [] then state else Replay(ApplyToRoom(state, events[0]), events[1..])
  }

  /** The snapshot replaces the room's contents, then what was held for the room is replayed on it in arrival order. */
  function ApplySnapshot(state: RoomState, event: ServerEvent): RoomState
    requires event.RoomSnapshot?
  {
    var snapshot := state.(
      activeRoomId := Some(event.roomId), synced := true, loadedRoomId := Some(event.roomId),
      participants := event.participants,
      documents := if state.activeRoomId == Some(event.roomId) then state.documents else None,
      chat := Sort(OlderMessage(), event.chatHistory),
      media := Sort(NewerEntry(), event.media),
      heldEvents := []);
    Replay(snapshot, OfRoom(state.heldEvents, event.roomId))
  }

  function ApplyServerEvent(state: RoomState, event: ServerEvent): RoomState {
    if !state.synced && HeldUntilSnapshot(event) && Some(event.roomId) == state.activeRoomId
         && |state.heldEvents| < MAX_HELD then
      state.(heldEvents := state.heldEvents + [event])
    else if event.RoomSnapshot? then ApplySnapshot(state, event)
    else ApplyToRoom(state, event)
  }

  function Reduce(state: RoomState, action: RoomAction): RoomState {
    match action
    case FromServer(event) => ApplyServerEvent(state, event)
    case RoomRequested(roomId) =>
      if state.activeRoomId == Some(roomId) && state.synced then state
      else
        var waiting := state.(
          activeRoomId := Some(roomId), synced := false,
          loadedRoomId := if state.loadedRoomId == Some(roomId) then state.loadedRoomId else None);
        if state.activeRoomId == Some(roomId) then waiting
        else waiting.(heldEvents := [], participants := [], chat := [], media := [], typing := map[])
    case ConnectionLost =>
      if !state.synced && state.typing == map[] then state else state.(synced := false, typing := map[])
  }

  function Run(state: RoomState, actions: seq<RoomAction>): RoomState
    decreases actions
  {
    if actions == [] then state else Run(Reduce(state, actions[0]), actions[1..])
  }

  function Arriving(events: seq<ServerEvent>): seq<RoomAction> {
    seq(|events|, i requires 0 <= i < |events| => FromServer(events[i]))
  }
}
