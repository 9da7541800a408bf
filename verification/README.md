# A model of the collaboration core

Dafny models of the parts of this repository whose claims hold over every input or every run, with proofs of those claims:

- **Word and paragraph diff** (`EditScript`, `WordScript`, `Tidying`, `Diff`). The trimmed, flattened longest-common-subsequence table and its backtrack, the readability pass, and the paragraph alignment above them. Texts are token lists whose concatenation is the text; `key`, `normalise` and the space test are any functions.
- **Client resync** (`RoomReducer`, `JobReplay`, `EntryReplay`, `ReplayLists`, `ListOrder`, `RoomLists`, `PeopleOrder`, `ChatWindow`, `FeedOrder`, `JobStanding`, `Resync`, `OldEvents`, `Overflow`, `RoomNotices`). Events held until the snapshot and replayed on it, for every well-formed history of a room, in whatever order things made at the same time are announced; what the newest messages leave out, what events held from an earlier connection spoil, and what is missed when more comes than can be held. `RoomNotices` has the rest of what is shown: documents, who is typing, removal, and what a change of rooms leaves.
- **Replicated notes** (`NotesCopy`, `RoomDocHub`, `NotesHub`, `NotesFates`, `NotesReleases`, `NotesHistory`, `NotesStorage`). A document is the set of operations merged into it. `NotesHub` interleaves the stretches between awaits on any number of replicas, `NotesFates` says what becomes of copies let go and of the gateway's own edits, `NotesReleases` when the end of an edit lets its copy go; `RoomDocHub` is one replica's hub with its fields; `NotesStorage` interleaves appends and compactions statement by statement.
- **Dispatch and completion of jobs** (`FairQueue`, `Dispatcher`, `JobPipeline`, `JobsInFlight`, `EventConsumer`). The fair order, one replica's dispatcher, and the "push, then mark" and "update as gate" protocols under crashes, repeats and reordering, up to what the notes are filled with.
- **Notes writer** (`NotesSections`, `NotesWriter`, `NotesResults`). Upload sections between arbitrary edits by people.
- **Limits** (`RateLimit`, `SlidingWindow`, `StorageReservation`). Token bucket, sliding window with its retry time, and storage reserved under a lock.
- **Tiled upscaling** (`TiledUpscale`), **rank fusion** (`RankFusion`) and **transcript packing** (`TranscriptPassages`).
- Shared: `Options`, `Sequences`, `Sorting` and `Jobs`.

Code that changes state is a class or a method with loops, tied by its `ensures` to functions on values; the theorems are about those functions, over all runs where runs matter. A step relation `Next` with `Enabled` is one atomic stretch of the code; `IsRun` and `After` are any number of them in any order.

## Where the code and what is said of it differ

Each of these is shown by a lemma with a concrete run or input, and each has a theorem, for all runs, that says exactly when.

- Replaying held events can change the order of people in the list, never who is in it: `Resync.PeopleMayChangePlaces`. It does exactly if someone who left in the course of them stands before someone who did not: `PeopleOrder.PeopleOrderKeptIff`.
- The snapshot brings messages and entries in the order in which they were made, but they are announced in another when two are made at once: `ChatWindow.CrossingPosts`, `FeedOrder.CrossingUploads`. A client that comes back shows the same messages and entries, each as it is; it shows them in the order of someone there throughout if and only if those the snapshot brings were announced in the order of their times, and before the others (`Resync.Resynced`, from `ChatWindow.ChatOrderIff` and `FeedOrder.FeedOrderIff`; `Resync.ResyncedInOrder` if nothing crossed).
- A held message older than the newest a snapshot brings lands behind them: `ChatWindow.OlderMessageLandsLast`. All that is shown is the newest and what came after them, in that order, if and only if all that was replayed and not deleted is among the newest (`ChatWindow.WindowKeptIff`, `Resync.NewestAndAfter`).
- A client holds 500 events and drops the rest. `Overflow` says exactly when that is missed: by the list of people (`PeopleMissedIff`), the chat (`MessagesMissedIff`), the feed (`EntriesMissedIff`), an entry's item, artifacts, error and progress (`ItemMissedIff`), a job's standing and message (`JobMissedIff`).
- A client that moves to another room keeps, as the room's documents, those of the former one until the new room announces some: `RoomNotices.FormerDocumentsStay`; `RoomNotices.DocumentsBack` says which documents are shown after any return or move.
- A removal is not among the held events: `Resync.RemovalAloneIsLost`, and `Resync.RemovalUndoneIff` for exactly when it is undone. With the departures the server sends after removals of people present, never (`Resync.Resynced`).
- Events held before a lost connection are replayed on the next snapshot: `Resync.HeldAcrossConnections`. If nothing was missed in between this does no harm (`Resync.Resynced` from its position `a`). If something was, `OldEvents` says exactly who is shown wrongly (`PeopleOverIff`), which messages (`ChatOverIff`), which entries (`FeedOverIff`), which titles (`ItemOverIff`), which job standings and messages (`JobOverIff`) and which outcomes (`OutcomeOverIff`).
- An edit by the gateway can return with its change nowhere: `NotesHub.EditOnReleasedCopyIsLost`. It is lost if and only if its copy was released between its beginning and its being applied, by another edit's end, the last look of a drop, or a discard, and no one else's edit brought the same: `NotesFates.EditLostIff`. It also returns when saving failed, with the change waiting for the next try.
- A load that fails takes its room out of the table even if a newer copy is there: `NotesHub.FailedLoadOrphansNewerCopy`. It does if and only if the loading copy was let go and the room opened again since (`NotesFates.LoadFailOrphansIff`), and that newer copy is never relayed to again (`NotesFates.NeverRelayedAgain`).
- A section can be filled by two handlers, and then its results can be missing for good: `JobPipeline.OvertakenHandlerFillsToo`. An update's handler that reads its job back after the last event overtook it fills the notes too (exactly then: `JobPipeline.LateFillIff`); if it reads the artifacts before the last event's handler has stored them, the section is done without results, and the true fill, finding it done, adds nothing (`NotesWriter.FinishedAgain`). The notes show the results if and only if the first fill read the artifacts after they were stored: `JobPipeline.ShowsResultsIff`. Artifacts sent with an update would be stored twice if the update is repeated (`JobPipeline.EarlyArtifactsRepeat`): one set is stored for every handler of an event with artifacts that got so far (`JobPipeline.OneSetPerHandler`). Workers send them with the last event only.
- Words typed in angle brackets inside a placeholder, and words typed inside the failure paragraph, are taken for the writer's own: `NotesWriter.TagLikeWordsAreLost`, `NotesWriter.WordsInFailureAreLost`; `NotesWriter.WordsStay` says exactly when a call takes words, `NotesWriter.WordsKeptIff` over runs with people writing in between.
- The retry time of the sliding window is exact if and only if the limit allows anything: `SlidingWindow.RetryIsExact`.
- "A keyword rank is worth less than one step in the meaning ranking" holds down to rank 17: `RankFusion.SteadyTo17`, and `RankFusion.StepBound` for every weight.
- A large deletion made in small steps, less than 30 s apart from the largest the notes were, is covered: `NotesHistory.RestorePointBeforeGradualDeletion`. But a restore point covers growth only since this replica's last save: `NotesHistory.RemoteGrowthIsNotCovered`; by what it saw then, exactly, `NotesHistory.CoveredIffLastLook`.

## Model

| member | source | states |
|---|---|---|
| EditScript.LcsIsLongest | client/src/lib/diff.ts:84-94 | no common subsequence of the keys is longer than the table's number |
| EditScript.LcsTrim | client/src/lib/diff.ts:66-73 | trimming a common prefix and suffix loses nothing: the longest common subsequence is theirs plus the middle's |
| EditScript.ScriptIsMinimal | client/src/lib/diff.ts:61-113 | the whole script keeps as many tokens as the longest common subsequence of the full texts, unless a middle past the cap had any match |
| EditScript.KeptIsCommon | client/src/lib/diff.ts:95-109 | what the script keeps is a common subsequence of the two key sequences |
| EditScript.ScriptCovers | client/src/lib/diff.ts:61-113 | every token of both sides is used once, in order, whichever branch is taken |
| EditScript.PushText | client/src/lib/diff.ts:53-58 | pushing a piece adds its text to each side it belongs to and to no other |
| WordScript.FillTable | client/src/lib/diff.ts:84-94 | the flattened table holds, at every cell, the longest common subsequence of the rests |
| WordScript.Trim | client/src/lib/diff.ts:66-73 | the common prefix and suffix are as long as they can be and do not overlap |
| WordScript.Backtrack | client/src/lib/diff.ts:95-109 | the backtrack renders the table's walk, token by token |
| WordScript.CompareMiddle | client/src/lib/diff.ts:78-110 | past the cap the middle is replaced outright, else walked |
| WordScript.Compare | client/src/lib/diff.ts:61-112 | before tidying, the parts render prefix, middle and suffix of one script |
| WordScript.RenderApplied | client/src/lib/diff.ts:244-247 | parts of a script give back the rewrite exactly |
| WordScript.ReadingMatches | client/src/lib/diff.ts:249-251 | parts of a script give back the original up to `key`, token by token |
| WordScript.RowIsProduct | client/src/lib/diff.ts:85-89 | the rows of the flattened table are `width` apart |
| Tidying.Fold | client/src/lib/diff.ts:122-137 | a lone space between two edits is folded into both, and nothing else |
| Tidying.Tidy | client/src/lib/diff.ts:122-158 | the two loops compute the folded and grouped parts |
| Tidying.TidyCorrect | client/src/lib/diff.ts:116-158 | tidying changes neither side's text, leaves no insertion directly before a deletion, and keeps all unchanged stretches, in order, but spaces that are neither first nor last |
| Diff.DiffWords | client/src/lib/diff.ts:61-114 | applied gives the rewrite, reverted the original up to `key`, through trimming, table, cap and tidying; what stays unchanged is what a script keeps that has no longer rival, or, past the cap, the trimmed ends |
| Diff.LcsOfWords | client/src/lib/diff.ts:84-94 | the table's number is exactly the length no common key sequence exceeds |
| Diff.LcsOfParagraphs | client/src/lib/diff.ts:169-195 | the paragraph table's number is exactly the length no common sequence of non-blank normal forms exceeds |
| Diff.MinimalEditScript | client/src/lib/diff.ts:61-113 | the tokens marked equal number the longest common subsequence if and only if the middle fits the cap or has no match at all |
| Diff.Intern | client/src/lib/diff.ts:174-184 | two paragraphs get the same number exactly if they have the same non-blank normal form |
| Diff.MatchParagraph | client/src/lib/diff.ts:207-211 | a matched paragraph closes the gap before it and is shown as the rewrite spells it |
| Diff.FlushGap | client/src/lib/diff.ts:199-203 | a gap is shown by a word diff of all its text: what it leaves unchanged is a longest common key sequence of its two token lists, but for inner spaces, or the trimmed ends when the middle is past the cap; its parts join those before it character by character |
| Diff.AlignParagraphs | client/src/lib/diff.ts:169-221 | the paragraph table and backtrack match as many paragraphs as possible |
| Diff.DiffText | client/src/lib/diff.ts:163-222 | the paragraphs of both texts are cut into matches, as many as can be, and gaps between them; each gap, or the whole text when a side has one paragraph, is diffed so; every character is marked as its stretch marks it; both round trips hold and the result is readable |
| Diff.MarksTell | client/src/lib/diff.ts:53-58 | how each character is marked tells the parts: there is one readable way to show them |
| Diff.Stats | client/src/lib/diff.ts:226-242 | `changes` counts the maximal changed regions, and words are counted per side |
| Diff.ChangesAreReplacements | client/src/lib/diff.ts:112-158 | a changed region is one deletion, one insertion, or a deletion then an insertion |
| JobReplay.ReplayedJob | client/src/state/roomReducer.ts:125-131 | a job's own events, replayed on the job they led to, change nothing |
| JobReplay.NeverBackwards | client/src/state/roomReducer.ts:118-131 | whatever arrives of one run, in any order, status and progress never go back |
| JobReplay.FinishedIgnoresUpdates | client/src/state/roomReducer.ts:125-131 | updates of a finished run change nothing |
| JobReplay.RetryAlwaysApplies | client/src/state/roomReducer.ts:118-126 | a new job id applies however far the run before it came |
| JobStanding.ProgressIsLast | client/src/state/roomReducer.ts:361-399 | whatever events come, a job shows the progress put by the last it took that puts one |
| JobStanding.CompletionShows | client/src/state/roomReducer.ts:380-399 | after any events, a completion leaves progress 1 if done and else what there was before, whatever updates of its run come late |
| JobReplay.StaleNoteReturns | client/src/state/roomReducer.ts:118-131 | an update that came after a later one of its run, and changed nothing, brings its message back when replayed on the job of a retry |
| EntryReplay.ReplayedEntry | client/src/state/roomReducer.ts:322-346 | a feed entry's life, replayed on where it led, ends there again |
| ReplayLists.ReplayedRoster | client/src/state/roomReducer.ts:223-225 | replaying joins and leaves on the roster they led to gives that roster: the last event about each person decides |
| ReplayLists.ReplayedIds | client/src/state/roomReducer.ts:297-346 | a list whose ids are never reused comes out of a replay with the same ids in the same order |
| RoomLists.ReplayedChat | client/src/state/roomReducer.ts:269-303 | the chat comes out of a replay unchanged, message by message and in order |
| RoomLists.ReplayedMedia | client/src/state/roomReducer.ts:322-399 | the feed comes out of a replay unchanged, entry by entry and in order |
| Resync.ReplayChangesNothing | client/src/state/roomReducer.ts:208-211 | any part of a well-formed history, replayed on the state after it, leaves people, chat and feed as they are |
| Resync.SnapshotShows | client/src/state/roomReducer.ts:194-207 | the snapshot, sorted, shows each person, message and entry as its query saw them: the newest messages oldest first, the feed newest first |
| Resync.HeldIsReplayed | client/src/state/roomReducer.ts:208-211 | everything held for the room is replayed on the snapshot, in arrival order |
| Resync.BackIs | client/src/state/roomReducer.ts:166-211 | what was held, from before and since, as long as there was room, and all that comes live, is applied to the snapshot's sorted lists, and nothing else is |
| Resync.HeldStaysBounded | client/src/state/roomReducer.ts:166-180 | whatever happens, no more than 500 events are held |
| Resync.LiveShows | client/src/state/roomReducer.ts:169-178 | a client there from the start shows the history |
| Resync.Resynced | client/src/state/roomReducer.ts:155-212 | all heard from some position on, across a lost connection or not: the people, every entry, and of the messages those the snapshot brings and those announced since, are shown as someone there for all of it sees them, and no others; feed and chat stand in that order if and only if what the snapshot brings was announced in the order of its times and ahead of the rest |
| Resync.WholeChat | gateway/src/db/repositories.ts:550-563 | if the snapshot has every message its query saw, all the room's messages are shown, and the very same list exactly under that condition |
| Resync.ResyncedInOrder | client/src/state/roomReducer.ts:155-212 | if nothing crossed and the chat is not cut, people, chat and feed are exactly those of someone there throughout |
| Resync.NewestAndAfter | gateway/src/db/repositories.ts:550-563 | the chat is what the snapshot brings and then what came after it if and only if every message posted since and not deleted is among those |
| Resync.PeopleMayChangePlaces | client/src/state/roomReducer.ts:105-111 | a run in which the replay reorders the list of people |
| PeopleOrder.PeopleOrderKeptIff | client/src/state/roomReducer.ts:105-111 | events replayed on the list of people they led to leave it as it is if and only if nobody in it who left during them stands before someone who did not |
| ChatWindow.WindowKeptIff | gateway/src/db/repositories.ts:550-563 | events from before, replayed on messages a snapshot brings, leave no trace if and only if every message they post, and neither they nor later events delete, is among those |
| ChatWindow.MessageShown | client/src/state/roomReducer.ts:269-303 | after any events, in order, on messages of the room, exactly those given or posted and not deleted are shown, as they are |
| ChatWindow.ChatOrderIff | gateway/src/db/repositories.ts:531-563 | they stand in the order announced if and only if those given were announced in the order of their times, and ahead of the rest |
| ChatWindow.CrossingPosts | gateway/src/ws/server.ts:317-328 | two messages made one after the other and announced the other way round: someone there and a returning client show them in different orders |
| FeedOrder.FeedOrderIff | gateway/src/http/routes/media.ts:333-401 | the same of the feed, newest first by the time of upload |
| FeedOrder.CrossingUploads | gateway/src/http/routes/media.ts:333-401 | two uploads that cross are shown in different orders |
| ListOrder.OrderIff | client/src/state/roomReducer.ts:297-346 | a list given, with events applied, is in the order of the list all events make of nothing if and only if whatever was announced before something given was given before it |
| ChatWindow.OlderMessageLandsLast | client/src/state/roomReducer.ts:297-303 | a held message older than the snapshot's newest is replayed behind them |
| Resync.RemovalAloneIsLost | client/src/state/roomReducer.ts:284-288 | a run in which a removal, not being held, is undone by the replayed joining |
| Resync.RemovalUndoneIff | client/src/state/roomReducer.ts:284-288 | someone is shown otherwise than they are if and only if their removal while waiting is the last said of them and what is held, or failing that the snapshot, has them in the room |
| Resync.HeldAcrossConnections | client/src/state/roomReducer.ts:457-461 | a run in which an event held before a lost connection spoils the next snapshot |
| OldEvents.PeopleOverIff | client/src/state/roomReducer.ts:457-461 | with any events held from before, the right people are shown if and only if everyone spoken of in them and not since is in the snapshot as the last of them has it |
| OldEvents.ChatOverIff | client/src/state/roomReducer.ts:457-461 | the chat shows the messages the snapshot brings and those announced since, as they are, and no other, if and only if every message posted in what was held from before, and not heard deleted, is in the snapshot; the order is then as without it |
| OldEvents.WindowOverIff | client/src/state/roomReducer.ts:457-461 | and is what the snapshot brings, then what came after it, if and only if every message posted before it in what was held, and not heard deleted, is in the snapshot |
| OldEvents.FeedOverIff | client/src/state/roomReducer.ts:457-461 | the feed has the right entries if and only if every upload held from before, and not heard deleted, is in the snapshot; and in the right order exactly if it would be without them |
| OldEvents.ItemOverIff | client/src/state/roomReducer.ts:330-346 | an entry's item is right if and only if it was renamed since, or not in the held events, or last so in them as the snapshot has it |
| OldEvents.JobOverIff | client/src/state/roomReducer.ts:118-131 | its job's run, status and progress are right if and only if an event since is not stale for where the held events leave the snapshot's job, or none says anything of it and they leave it where it was; its message if and only if one was put since by an event taken, or they leave it the right one; if retries are announced first, the former is: any news since, or only updates of the snapshot's run held, or the last held is where it stands |
| OldEvents.OutcomeOverIff | client/src/state/roomReducer.ts:380-399 | its artifacts, and its error, are right if and only if some were put since, or none by those events, or by the last of them the same the snapshot has; its progress, if and only if an event since put one and was not stale for where they left the job, or they left it right |
| Overflow.HoldsUpTo | client/src/state/roomReducer.ts:166-180 | what is held of any stretch is everything to be held up to some point of it, and nothing is dropped unless more than 500 come |
| Overflow.PeopleMissedIff | client/src/state/roomReducer.ts:166-180 | when more came than was held, the right people are shown if and only if everyone spoken of in what was dropped, and not since, is by what was held, or else the snapshot, as the last dropped has them |
| Overflow.MessagesMissedIff | client/src/state/roomReducer.ts:166-180 | no message is missed or left over if and only if every one posted in what was dropped, and not deleted, is in the snapshot, and none deleted there, and not heard deleted, is in the snapshot or was held |
| Overflow.EntriesMissedIff | client/src/state/roomReducer.ts:166-180 | the same of entries |
| Overflow.ItemMissedIff | client/src/state/roomReducer.ts:322-399 | an entry's item, artifacts and error are right if and only if what was dropped puts none, or what came since does, or what was held left it so; its progress, if and only if an event since put one and was not stale, or it was left with the last that any put |
| Overflow.JobMissedIff | client/src/state/roomReducer.ts:118-131 | its job stands right if and only if an event since is not stale for where what was held left it, or none says anything and the last event before has it there; likewise its message |
| RoomNotices.DocumentsBack | client/src/state/roomReducer.ts:194-212 | coming to a room, a client shows the documents last announced there, in what it held or since it asked, and if none were, those it showed before |
| RoomNotices.FormerDocumentsStay | client/src/state/roomReducer.ts:204 | a run in which a client that moved to another room keeps the documents of the former one as its own |
| RoomNotices.TypingShown | client/src/state/roomReducer.ts:297-320 | anyone else is shown as typing if and only if the last heard of it is that they do, a message sent ending it |
| RoomNotices.OwnTypingUnseen | client/src/state/roomReducer.ts:307 | the client itself is never shown as typing |
| RoomNotices.RemovedIff | client/src/state/roomReducer.ts:284-287 | over any actions a client knows that it was removed if and only if it was told so |
| RoomNotices.RemovedIsGone | client/src/state/roomReducer.ts:288 | whoever is removed is not shown any more, in or out of the room, and all others are |
| RoomNotices.MovedShowsNothing | client/src/state/roomReducer.ts:440-453 | after a move nothing of the former room or the new one is shown until a snapshot comes, whatever else does |
| RoomNotices.RejoiningKeepsView | client/src/state/roomReducer.ts:446-448 | asking again for the same room keeps view and held events |
| RoomNotices.LostKeepsView | client/src/state/roomReducer.ts:456-461 | a lost connection keeps view and held events, and ends all typing |
| RoomNotices.DeletedShowsNothing | client/src/state/roomReducer.ts:348-359 | nothing of a deleted room is shown until another snapshot, whatever comes |
| RoomNotices.LoadedIsActive | client/src/state/roomReducer.ts:440-453 | over any actions the room loaded is the one the client is in or on its way to, or none |
| RoomNotices.HeldAreOwn | client/src/state/roomReducer.ts:169-178 | over any actions only events of that room that wait for its snapshot are held |
| JobStanding.TakesSome | client/src/state/roomReducer.ts:125-131 | a job anywhere stays as it is until it takes one of a run's events in order, and then follows them to the last, with their last message |
| JobStanding.AfterOldEvents | client/src/state/roomReducer.ts:118-131 | old events leave a job where it stood if all are updates of its run, else exactly at the last of them |
| JobStanding.HistoryInOrder | client/src/state/roomReducer.ts:118-131 | what a room announces of a job comes in order: no event of a run is older than one before it, and none follows its end |
| NotesCopy.SameUpdatesSameDocument | gateway/src/docs/roomDocs.ts:15-18 | order and repetition of updates do not matter to the document |
| NotesCopy.FailedSaveUndone | gateway/src/docs/roomDocs.ts:392-412 | a save that fails leaves the queue as if it had not been tried, whatever was edited meanwhile |
| RoomDocHub.RoomDoc.Heard | gateway/src/docs/roomDocs.ts:312-325 | a listening document queues, schedules and publishes what is new; a destroyed one does none of it |
| RoomDocHub.RoomDoc.KeepHistory | gateway/src/docs/roomDocs.ts:422-446 | the baseline and version kept are those of the specification `NotesHistory.Keep` |
| RoomDocHub.RoomDoc.StartFlush | gateway/src/docs/roomDocs.ts:392-400 | a flush disarms the timer, takes all that is pending, and looks at history only if there is something |
| RoomDocHub.RoomDoc.SaveFailed | gateway/src/docs/roomDocs.ts:406-412 | a failed batch goes back before what came since, and the timer is armed |
| RoomDocHub.RoomDoc.Release | gateway/src/docs/roomDocs.ts:225-233 | undisturbed, a released copy stores all that waited unless every one of its three saves fails |
| RoomDocHub.RoomDocHub.Open | gateway/src/docs/roomDocs.ts:305-310 | the room's own copy, new only if there is none |
| RoomDocHub.RoomDocHub.LoadDone | gateway/src/docs/roomDocs.ts:345-352 | the parts are merged in without being saved again, and a baseline is taken |
| RoomDocHub.RoomDocHub.LoadFailed | gateway/src/docs/roomDocs.ts:374-378 | the copy is destroyed and whatever copy the room has leaves the table |
| RoomDocHub.RoomDocHub.Relay | gateway/src/docs/roomDocs.ts:188-200 | an open copy merges what is relayed and tells everyone but its author; a closed one is not touched |
| RoomDocHub.RoomDocHub.Leave | gateway/src/docs/roomDocs.ts:203-212 | an editor that leaves is no longer a peer |
| RoomDocHub.RoomDocHub.StartDrop | gateway/src/docs/roomDocs.ts:220-223 | a dropped copy leaves the table, still listening |
| RoomDocHub.RoomDocHub.Discard | gateway/src/docs/roomDocs.ts:240-245 | a discarded copy leaves the table and is destroyed unsaved |
| RoomDocHub.RoomDocHub.ApplyEdit | gateway/src/docs/roomDocs.ts:287-288 | the change is applied, published and its save begun in one stretch |
| RoomDocHub.RoomDocHub.FinishEdit | gateway/src/docs/roomDocs.ts:289-294 | a copy opened for the edit alone is released, unless editors came, a save waits, or it is not the room's any more |
| NotesHub.SavedStep | gateway/src/docs/roomDocs.ts:283-413 | every step keeps each accepted edit safe and every waiting one scheduled |
| NotesHub.NoEditLost | gateway/src/docs/roomDocs.ts:312-413 | in every run each accepted edit is stored, pending or being appended, and pending ones have a save set unless given up or deleted |
| NotesHub.StoredAtRest | gateway/src/docs/roomDocs.ts:220-233 | with nothing in flight and no timer set, every edit of a copy neither given up nor deleted is stored |
| NotesHub.GivenUpAfterLastAttempt | gateway/src/docs/roomDocs.ts:226-231 | only a drop at its last attempt gives a copy up |
| NotesHub.EditReturnsSafe | gateway/src/docs/roomDocs.ts:269-295 | an edit that was heard returns with its change stored, pending or being appended |
| NotesHub.EditOnReleasedCopyIsLost | gateway/src/docs/roomDocs.ts:291-294 | a run in which an edit returns with its change nowhere |
| NotesFates.EditLostIff | gateway/src/docs/roomDocs.ts:269-295 | in every run, an edit's operation is stored, pending or being appended nowhere if and only if its copy was released between the edit's beginning and its being applied, and no other edit brought it |
| NotesHub.FailedLoadOrphansNewerCopy | gateway/src/docs/roomDocs.ts:374-378 | a run in which a failed load takes a newer, living copy out of the table |
| NotesFates.LoadFailOrphansIff | gateway/src/docs/roomDocs.ts:374-378 | in every run, a failed load takes another, living copy out of the table if and only if the replica's entry is not the loading copy; which is if and only if that was let go while loading and the room opened again since |
| NotesFates.NeverRelayedAgain | gateway/src/docs/roomDocs.ts:188-200 | a copy out of the table is never in it again, and nothing more is relayed to it, whatever happens |
| NotesFates.LoadedHoldsStored | gateway/src/docs/roomDocs.ts:345-352 | in every run a loaded copy holds all that was stored when its load was answered |
| NotesReleases.PeersAreThere | gateway/src/docs/roomDocs.ts:160-212 | in every run those in a copy are those who joined it and have not left it since |
| NotesReleases.EditReleasesIff | gateway/src/docs/roomDocs.ts:283-294 | in every run the end of an edit takes its copy out of the table and destroys it if and only if that edit opened it, no one who joined it is still there, nothing is pending in it, and it is the replica's copy |
| NotesReleases.WaitingCanBeStored | gateway/src/docs/roomDocs.ts:383-403 | in every run what waits in a copy neither given up nor discarded can be flushed, and an append that goes through stores all of it |
| NotesReleases.EditCanReturn | gateway/src/docs/roomDocs.ts:283-294 | an edit whose load has not failed can always return, within five steps |
| NotesReleases.OpenCopyIsReached | gateway/src/docs/roomDocs.ts:188-212 | in every run an open copy can be told of whatever was published, and anyone can leave it |
| NotesHub.KnownStep | gateway/src/docs/roomDocs.ts:188-200 | every step keeps what a copy was brought in its document, and nothing in a document was never accepted |
| NotesHub.OpenedCopyConverges | gateway/src/docs/roomDocs.ts:345-372 | a copy that caught up after all earlier edits were stored, and was brought all later ones, is exactly all that was accepted |
| NotesHub.CopiesAgree | gateway/src/docs/roomDocs.ts:345-372 | two such copies hold the same document |
| NotesHistory.BaselineCovers | gateway/src/docs/roomDocs.ts:443-445 | after every save the kept copy is at least as large as the document and under 30 s old |
| NotesHistory.RestorePointBeforeLargeDeletion | gateway/src/docs/roomDocs.ts:416-438 | losing 400 characters and 40% since the last save keeps a copy at least that large, seen within 30 s of it |
| NotesHistory.LargeDeletionOnly | gateway/src/docs/roomDocs.ts:433-438 | such a copy is kept only when that much of it really went |
| NotesHistory.CoveredIffLastLook | gateway/src/docs/roomDocs.ts:433-445 | when nothing larger was seen in the last 30 s, a copy is kept before a batch if and only if that much went of what this replica last saw, whatever others added since |
| NotesHistory.HourlyApart | gateway/src/docs/roomDocs.ts:439-442 | an hourly restore point comes at least an interval after any other, if the clock does not go back |
| NotesHistory.HourlyIff | gateway/src/docs/roomDocs.ts:439-442 | a save not of a large deletion keeps the document if and only if the interval has passed since a version was last kept, of either kind |
| NotesHistory.RestorePointBeforeGradualDeletion | gateway/src/docs/roomDocs.ts:415-446 | a large deletion made bit by bit within 30 s keeps the largest that was seen, and only when that much has gone |
| NotesHistory.LargeDeletionIff | gateway/src/docs/roomDocs.ts:416-419 | a large deletion is 400 characters and two fifths of what there was |
| NotesStorage.Highest | gateway/src/db/roomDocs.ts:74 | the watermark is the largest number read |
| NotesStorage.CompactionKeeps | gateway/src/db/roomDocs.ts:61-89 | compacting leaves the document a load returns unchanged, whatever has been committed since it read the log |
| NotesStorage.LoadsAllCommitted | gateway/src/db/roomDocs.ts:13-97 | in every run a load returns exactly what was ever committed |
| NotesStorage.CompactionLeavesLater | gateway/src/db/roomDocs.ts:61-88 | a compaction leaves in the log exactly the batches committed between its reading of the log and its own commit, whatever their numbers |
| NotesStorage.WatermarkIsGreatestRead | gateway/src/db/roomDocs.ts:74 | the snapshot names the greatest number it was made of |
| NotesStorage.RolledBackIsGone | gateway/src/db/roomDocs.ts:27-40 | a batch whose append was rolled back is never loaded, in any run after |
| NotesStorage.RangeWouldLose | gateway/src/db/roomDocs.ts:80-83 | a run in which deleting by range loses a batch that deleting the rows read keeps |
| NotesStorage.RoomDocTables.Load | gateway/src/db/roomDocs.ts:13-24 | the parts returned merge to all that was committed |
| NotesStorage.RoomDocTables.Append | gateway/src/db/roomDocs.ts:27-40 | a batch gets the next number, unseen until committed, and the count returned is the visible rows and itself |
| NotesStorage.RoomDocTables.CommitAppend | gateway/src/db/roomDocs.ts:30-38 | the batch becomes visible |
| NotesStorage.RoomDocTables.TryCompact | gateway/src/db/roomDocs.ts:53-60 | the lock is taken if free and the loser skips |
| NotesStorage.RoomDocTables.ReadRows | gateway/src/db/roomDocs.ts:61-68 | the visible rows are read, and with none the transaction ends |
| NotesStorage.RoomDocTables.ReadSnapshot | gateway/src/db/roomDocs.ts:69-73 | the snapshot is read beside them |
| NotesStorage.RoomDocTables.CommitCompaction | gateway/src/db/roomDocs.ts:74-90 | snapshot, watermark and deletion take effect together |
| FairQueue.WithTurns | gateway/src/queue/fair.ts:37-44 | each job's turn is its session's jobs in flight and its place among the session's waiting jobs |
| FairQueue.FairOrder | gateway/src/queue/fair.ts:31-53 | a permutation of the waiting jobs, by turn, then longest unserved, then age, then id |
| FairQueue.FairOrderUnique | gateway/src/queue/fair.ts:38-52 | there is one such order, so input order does not matter |
| FairQueue.ServedHeadLeavesTail | gateway/src/queue/fair.ts:16-18 | once the head is handed over, the order of the rest is the tail |
| FairQueue.ServedInTheOrderShown | gateway/src/queue/fair.ts:16-18 | taking n at once is taking one n times |
| FairQueue.OrderMovesWithLastServed | gateway/src/queue/fair.ts:34 | with `lastServed` updated in between, it would not be |
| FairQueue.RankIsPlace | gateway/src/queue/fair.ts:40-43 | a job's k is one more than its session's jobs ahead of it in the order |
| FairQueue.OlderFirst | gateway/src/queue/fair.ts:38-52 | of one session, or at the same turn and last service, the older job goes first |
| FairQueue.MaxMinFair | gateway/src/queue/fair.ts:8-12 | a session served while another waits ends up at most one job ahead of it |
| FairQueue.BoundedWaiting | gateway/src/queue/fair.ts:5-11 | how many jobs go first depends on the turns others have left, not on how many they queued |
| Dispatcher.Dispatcher.DispatchStamp | gateway/src/queue/dispatcher.ts:109-118 | stamps strictly increase and are never behind the clock |
| Dispatcher.Dispatcher.Hand | gateway/src/queue/dispatcher.ts:77-79 | one job goes to the end of its queue, then is marked |
| Dispatcher.Dispatcher.Send | gateway/src/queue/dispatcher.ts:76-80 | the jobs go out in order, with increasing marks, and no other queue changes |
| Dispatcher.Dispatcher.TopUp | gateway/src/queue/dispatcher.ts:55-80 | the first jobs of the fair order fill the free places, in order: the queue is full then, and not over, or nothing is left |
| Dispatcher.MarksTellTheOrder | gateway/src/queue/dispatcher.ts:109-118 | of two jobs sent in one tick, marks are ordered exactly as the fair order is |
| Dispatcher.Dispatcher.Kick | gateway/src/queue/dispatcher.ts:143-149 | a request starts a dispatch or is remembered |
| Dispatcher.Dispatcher.Finished | gateway/src/queue/dispatcher.ts:150-159 | when a dispatch ends, every request has been answered by one that started after it |
| JobPipeline.DispatchStep | gateway/src/queue/dispatcher.ts:41-90 | pushed before marked, and in its own pool's queue until taken, through every step and rollback |
| JobPipeline.QueuesStayShort | gateway/src/queue/dispatcher.ts:56-80 | a queue and what is about to join it never pass `dispatchAhead` |
| JobPipeline.NeverLost | gateway/src/queue/dispatcher.ts:8-19 | in every run a submitted job is waiting, in its own pool's queue or taken, and every committed mark was pushed |
| JobsInFlight.InFlightIs | gateway/src/queue/dispatcher.ts:92-107 | in every run what counts as in flight for a session are its jobs on that queue marked by a dispatch committed or open, no last event of which has come to the gate |
| JobsInFlight.SentOnceCommitted | gateway/src/queue/dispatcher.ts:16-19 | in every run a job is put on its queue again only if no dispatch that committed has marked it |
| JobsInFlight.ChosenWait | gateway/src/queue/dispatcher.ts:55-75 | what a dispatch chooses waits for that queue, unmarked and unclaimed, and there is room for it |
| JobsInFlight.ChooseFills | gateway/src/queue/dispatcher.ts:55-75 | it leaves no place free unless nothing else waits, and what is not looked at is no older than what is |
| JobsInFlight.FirstInFirstOut | gateway/src/queue/dispatcher.ts:77 | in every run workers take the jobs of a queue in the order they were put on it |
| JobPipeline.CompletionStep | gateway/src/db/repositories.ts:711-743 | every step keeps at most one handler of a job's last event past the gate |
| JobPipeline.EffectivelyOnce | gateway/src/jobs/eventConsumer.ts:95-122 | in every run at most one completion is published, with the outcome on record, and its handler fills the notes at most once |
| JobPipeline.LateFillIff | gateway/src/jobs/eventConsumer.ts:108-115 | the notes are filled by another handler too if and only if one passed the gate before the job's last event, read its job back after it, and went on to fill |
| JobPipeline.ShowsResultsIff | gateway/src/jobs/eventConsumer.ts:113-115 | with artifacts on last events only, a filled section shows them if and only if the first handler to fill it read them after they were stored; otherwise it shows none, ever |
| JobPipeline.ArtifactsOnce | gateway/src/db/repositories.ts:745-774 | with artifacts on last events only, one set is stored |
| JobPipeline.OneSetPerHandler | gateway/src/db/repositories.ts:747-774 | in every run a job has one set of artifacts stored for each of its handlers past storing whose event had any, and no other |
| EventConsumer.JobEventConsumer.UpdateJobFromEvent | gateway/src/db/repositories.ts:711-777 | an unknown or ended job's event changes nothing; any other updates the row and adds its artifacts |
| EventConsumer.JobEventConsumer.HandleEntry | gateway/src/jobs/eventConsumer.ts:95-122 | an entry past the gate is told to its room; a last one fills the notes if its item is there, and is indexed if done |
| EventConsumer.JobEventConsumer.HandleEntries | gateway/src/jobs/eventConsumer.ts:77-86 | the loop handles every entry in order |
| EventConsumer.FirstEndingDecides | gateway/src/jobs/eventConsumer.ts:15-115 | for every stream: a job's row, with its attempts and times, and its artifacts are what its events up to the first last one leave; its room is told exactly those, in order, each with its own status, progress and message, the last as the completion with all artifacts; notes filled once if the item is there, indexed once if done |
| EventConsumer.RedeliveryIsAbsorbed | gateway/src/db/repositories.ts:745-746 | entries of ended jobs, delivered again, change nothing at all |
| EventConsumer.UnknownIsIgnored | gateway/src/db/repositories.ts:730-743 | of a job without a row nothing is made, told, filled or indexed |
| JobPipeline.OvertakenHandlerFillsToo | gateway/src/db/repositories.ts:749-776 | a run from nothing with two fills, the artifacts stored, and a section that shows none of them |
| JobPipeline.EarlyArtifactsRepeat | gateway/src/db/repositories.ts:747-774 | a run from nothing that stores an update's artifacts twice |
| NotesSections.PlaceholderRecognised | shared/src/notes.ts:169-177 | what the gateway writes to wait is what it later takes for a placeholder |
| NotesSections.PlainWordsAreNoPlaceholder | shared/src/notes.ts:170-177 | words without a `<`, in any kind of block, are taken for the placeholder only if they are its very words in a paragraph |
| NotesSections.TagLikeWordsAreUnseen | shared/src/notes.ts:175-176 | words in angle brackets leave it a placeholder |
| NotesSections.LoneBracketsStay | shared/src/notes.ts:176 | brackets with nothing in them, or never closed, are not stripped |
| NotesSections.Find | shared/src/notes.ts:160-167 | the first section of the upload, or none if there is none |
| NotesSections.FindSection | shared/src/notes.ts:160-167 | the loop finds that section |
| NotesWriter.InvStep | gateway/src/notes/writer.ts:118-228 | every call and every edit of a person keeps one section per id, each known as written, and brings back none |
| NotesWriter.OneSectionPerUpload | gateway/src/notes/writer.ts:120-138 | in every run no id has two sections, and each is in the written map |
| NotesWriter.GoneStaysGone | gateway/src/notes/writer.ts:174-207 | a section once gone never returns |
| NotesWriter.StaysUntilDeleted | gateway/src/notes/writer.ts:118-228 | no call but its own removal takes a section away |
| NotesWriter.WordsStay | gateway/src/notes/writer.ts:27-29 | people's blocks stay, all and in order, through every call, except exactly when it takes a touched paragraph for its own or deletes the upload |
| NotesWriter.WordsAfter | gateway/src/notes/writer.ts:118-228 | every call leaves exactly the words it does not swallow, in their order |
| NotesWriter.WordsKeptIff | gateway/src/notes/writer.ts:27-29 | through every run of calls and of people's edits, words that no person deletes stand in the notes to the end, in their order, if and only if no call swallows any of them |
| NotesWriter.UploadThenFinish | gateway/src/notes/writer.ts:118-228 | an untouched section shows exactly the results |
| NotesWriter.FinishedAgain | gateway/src/notes/writer.ts:200-201 | a second completion of the same outcome changes nothing, whatever its results |
| NotesWriter.RetryReplacesFailure | gateway/src/notes/writer.ts:146-161 | failed, retried, finished: untouched, the results take the failure's place |
| NotesWriter.PlainWordsAreNoFailure | gateway/src/notes/writer.ts:98-109 | words without a `<` are taken for the failure only in a paragraph that begins as it does |
| NotesResults.CallDoes | gateway/src/notes/writer.ts:118-228 | a call leaves all but its own section as it was; that one stays in its place, with the title, status and blocks that the kind of call gives it, or is taken out, or made at the end for an upload that never had one |
| NotesResults.ResultsGoAfter | shared/src/notes.ts:179-196 | a section that is not just the placeholder, and not yet at that outcome, has after a completion its blocks, then the results, with the new status |
| NotesResults.RetryThenFinish | gateway/src/notes/writer.ts:146-224 | tried again and finished, with any outcome: the results stand for the failure or the waiting text, else after all that was there |
| NotesResults.OnlyAdds | gateway/src/notes/writer.ts:27-29 | any call but a removal, a retry of a lone failure or the filling of a placeholder leaves what is in a section and adds only after it |
| NotesResults.ResultsStand | shared/src/notes.ts:179-184 | in every run after, until a person, a removal or a retry of a lone failure takes them, results stand after all that was there when they came |
| NotesWriter.WordsInFailureAreLost | gateway/src/notes/writer.ts:104-108 | anything typed after the failure's beginning passes for the failure |
| NotesWriter.TagLikeWordsAreLost | shared/src/notes.ts:189-193 | a section with only bracketed words added loses them to the results |
| NotesWriter.ResultBlocks | gateway/src/notes/writer.ts:61-96 | never nothing; a failure alone for a failed job; else the summary first, or the transcript's opening lines, the transcript's count, the enhanced text or its mention last, or the message |
| NotesWriter.Writer.OnUploaded | gateway/src/notes/writer.ts:118-138 | the call is the step `Uploaded` |
| NotesWriter.Writer.OnRetrying | gateway/src/notes/writer.ts:147-157 | the call is the step `Retrying` |
| NotesWriter.Writer.OnRenamed | gateway/src/notes/writer.ts:164-168 | the call is the step `Renamed` |
| NotesWriter.Writer.OnRemoved | gateway/src/notes/writer.ts:178-185 | the call is the step `Removed`, which also marks the upload as written |
| NotesWriter.Writer.OnFinished | gateway/src/notes/writer.ts:192-224 | the call is the step `Finished` |
| RateLimit.GrantedIffFits | gateway/src/ws/rateLimit.ts:29-35 | a request is granted if and only if it fits every window from creation, each earlier call and this moment |
| RateLimit.RefillPerSecond | gateway/src/ws/rateLimit.ts:15-36 | every second brings the rate |
| RateLimit.WindowIsBounded | gateway/src/ws/rateLimit.ts:8-9 | between any two calls no more is granted than the capacity and what the time brings |
| RateLimit.TokenBucket.Take | gateway/src/ws/rateLimit.ts:15-36 | the method answers as that, for every history of calls |
| SlidingWindow.Window.Within | gateway/src/limits.ts:34-48 | accepted exactly if at most `max` attempts, refused ones counted, fall in the window with it |
| SlidingWindow.HeldIsEnough | gateway/src/limits.ts:38-42 | what the sorted set forgets no later window needs |
| SlidingWindow.AtMostMaxInAnyWindow | gateway/src/limits.ts:28-33 | no window, wherever it lies, holds more than `max` accepted |
| SlidingWindow.AcceptedOnceBlockingLeaves | gateway/src/limits.ts:50-55 | alone, a retry is accepted if and only if the event at index count - max has left the window |
| SlidingWindow.RetryIsExact | gateway/src/limits.ts:56-59 | the retry time is accepted if and only if the limit allows any, and no fewer whole seconds would do |
| SlidingWindow.CeilSeconds | gateway/src/limits.ts:58 | the least whole seconds that are enough |
| StorageReservation.LimitsHold | gateway/src/limits.ts:167-190 | in every run no room and no session passes its limit |
| StorageReservation.RefusedOnlyIfFull | gateway/src/limits.ts:148-165 | an upload is refused if and only if recording it would pass a limit |
| StorageReservation.RefusedFor | gateway/src/limits.ts:148-165 | for the room if recording it would pass its limit, and else for the session |
| StorageReservation.UnlockedChecksLetBothIn | gateway/src/limits.ts:168-171 | two measured before either is recorded both go in, past the limit exactly if they do not fit together |
| TiledUpscale.Reflect | workers/strategies/image/realesrgan.py:153 | the reflected index is inside, and inside ones are their own |
| TiledUpscale.ReflectMirrors | workers/strategies/image/realesrgan.py:153 | it is mirrored at both edges, on and on |
| TiledUpscale.WrittenExactlyOnce | workers/strategies/image/realesrgan.py:156-162 | each output pixel is in one tile of the grid and no other |
| TiledUpscale.TileMatchesWhole | workers/strategies/image/realesrgan.py:163-180 | slices are in range, and a tile's pixels are those of the whole image in one pass |
| TiledUpscale.WriteTile | workers/strategies/image/realesrgan.py:176-180 | a tile writes its own rectangle and nothing else |
| TiledUpscale.UpscaleRow | workers/strategies/image/realesrgan.py:160-180 | a row of tiles finishes its rows and keeps those above |
| TiledUpscale.UpscaleTiled | workers/strategies/image/realesrgan.py:138-183 | whatever the tile, every pixel is that of one pass over the whole image |
| TiledUpscale.Run | workers/strategies/image/realesrgan.py:204-221 | the halving loop ends, with that same picture or the failure the first decisive pass meets |
| TiledUpscale.GivesUpOnlyAtSmallest | workers/strategies/image/realesrgan.py:214-218 | it gives up for memory only if the smallest tile did not fit |
| TiledUpscale.PictureIff | workers/strategies/image/realesrgan.py:204-221 | there is a picture if and only if some tile on the way down fits after all before it ran out of memory, and it is the one used |
| TiledUpscale.EndsWithTile | workers/strategies/image/realesrgan.py:219 | the tile it ends with fits, and is between the smallest and the one asked for |
| TiledUpscale.RepeatingIsLocal | workers/strategies/image/realesrgan.py:163-180 | there are operators the theorem is about |
| RankFusion.StepBound | gateway/src/ask/store.ts:117-126 | a first keyword place is worth less than a step of meaning exactly if w(60+r)(61+r) < 61 |
| RankFusion.SteadyTo17 | gateway/src/ask/store.ts:124-129 | at 0.01 that is down to rank 17 |
| RankFusion.TopKeepsOrder | gateway/src/ask/store.ts:203-223 | while it is, the best by meaning come first and in order, whatever the keywords |
| RankFusion.First17KeepOrder | gateway/src/ask/store.ts:203-223 | of what is retrieved, the first 17 are the nearest, nearest first |
| RankFusion.KeywordOnlyComesAfter | gateway/src/ask/store.ts:203-223 | a candidate only keywords found never passes one meaning ranked |
| RankFusion.CandidatesAreTop | gateway/src/ask/store.ts:203-223 | only the first 20 of either ranking are candidates |
| RankFusion.OvertakesBelowBound | gateway/src/ask/store.ts:117-126 | beyond the bound a keyword place does overtake |
| TranscriptPassages.SplitTranscript | gateway/src/ask/passages.ts:33-54 | new lines give back every line once and in order; carrying, closing and sizes are as said; each body says its lines in order, a space between, and starts when its first is spoken |
| TranscriptPassages.JoinedLength | gateway/src/ask/passages.ts:42-52 | the length counted is the body's and one |

## Left out

- Yjs, y-protocols, base64 and lib0 framing, cursors: merging is union of operation sets, and a document's size is given with it. Updates that arrive before what they depend on are not modelled.
- Redis, Postgres, Celery and sockets: only the atomic effect of each command or statement is modelled. A deleted document's rows are not.
- Regular expressions: `TOKEN` and `PARAGRAPH` enter as lists that concatenate to the text, `STAMPED` as lines already read; the tag-stripping of `isPlaceholder` is modelled exactly.
- Floating point: sizes compare as 10 * size <= 6 * base, token counts, fusion scores and pixels are exact numbers. `Uint32Array` and `Int32Array` entries are unbounded; lengths fit them.
- `localeCompare` is the order of integer ids, any total order serving as well.
- Resync.Resynced: people are compared as a map from id to person, not as a list, because the replay may reorder them; events for a client that is itself removed are not covered.
- Resync histories are well-formed: ids are not reused, a message is posted once, each item's upload is announced before all else of it, a job's updates come in order (`JobReplay.StaleNoteReturns` shows what an update out of order does) and a retry is a new job. What a snapshot has of one person, message or entry is how they stood after some of what is announced of them. Time stamps kept in the state, the pruning of typing by age, and session-level events are not modelled.
- NotesHub.OpenedCopyConverges: the copy's one catch-up must come after all earlier edits are stored, and every later publish must be delivered; the code offers no more.
- NotesHub models one document; that documents do not affect each other is `RoomDocHub`'s table, where each key has its own copy.
- NotesWriter: two replicas creating the same upload's section in concurrent, unmerged documents are not modelled; each call sees the document the calls before it left. People create no sections and change no section's id or status.
- NotesWriter.ResultBlocks: the wording of durations and line counts, and the parsing of summaries, are parameters.
- JobPipeline: marking jobs failed from elsewhere, deleting jobs, an upload deleted or its section edited before it is filled, and worker crashes inside a job are not modelled; the gate accepts only events of jobs a worker took. A failed job's section shows the failure whatever artifacts were read.
- SlidingWindow: one clock that does not go back; the set's expiry, which takes only what no window needs, and the open failure when Redis is away are left out.
- StorageReservation: the lock is per session; that two sessions may share a lock by hash only makes uploads wait.
- TiledUpscale: the network is any operator local within the context given; that the real one is so is not claimed. Progress messages and the fp32 retry are left out.
- RankFusion: the two rankings are given; how distances and text ranks are computed is not modelled.
- `pieces`, `splitDocument`, `docKey`, formatting, guards, routes and components would only add easy members.
