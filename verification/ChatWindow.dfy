/**
 * A snapshot's chat is the newest messages by the time they were made (gateway/src/db/repositories.ts, lines 550-563),
 * and events are replayed on it in the order in which they were announced. Which messages does that show, and when in
 * the order in which someone there throughout sees them?
 */
module ChatWindow {
  import opened Options
  import opened Sequences
  import opened Sorting
  import opened RoomReducer
  import opened ReplayLists
  import opened ListOrder
  import opened RoomLists

  /** Oldest first; those made in the same millisecond stand as the query returned them. */
  ghost predicate ByTime(chat: seq<ChatMessage>) {
    forall i, j | 0 <= i < j < |chat| :: chat[i].createdAt <= chat[j].createdAt
  }

  /** The message as a query sees it for which the first `at` events have happened to it. */
  function Visible(h: seq<ServerEvent>, at: string -> nat, id: string): Option<ChatMessage>
    requires at(id) <= |h|
  {
    FindMessage(ChatRun([], h[..at(id)]), id)
  }

  /**
   * The newest `limit` of the messages the query sees. A message is stored before it is announced, and not in the same
   * order, so for each the query may have seen a different stretch of the history.
   */
  ghost predicate IsNewest(chat: seq<ChatMessage>, limit: nat, h: seq<ServerEvent>, at: string -> nat)
    requires forall id :: at(id) <= |h|
  {
    && ByTime(chat) && |chat| <= limit && Distinct(ChatIds(chat))
    && (forall m | m in chat :: Visible(h, at, m.id) == Some(m))
    && (forall id | Visible(h, at, id).Some? && !HasMessage(chat, id) ::
          |chat| == limit && forall m | m in chat :: Visible(h, at, id).value.createdAt <= m.createdAt)
  }

  /** Message ids are never reused, nor a message posted twice. */
  ghost predicate ChatOrderly(h: seq<ServerEvent>) {
    && NoReuse(ChatIdEvents(h))
    && (forall i, j | 0 <= i < j < |h| && h[i].ChatPosted? && h[j].ChatPosted? :: h[i].message.id != h[j].message.id)
  }

  /** `es` are the events of `h` at the indices `idx`, in order. */
  predicate Picks(es: seq<ServerEvent>, h: seq<ServerEvent>, idx: seq<nat>) {
    && |idx| == |es|
    && (forall i | 0 <= i < |es| :: idx[i] < |h| && es[i] == h[idx[i]])
    && (forall i, j | 0 <= i < j < |idx| :: idx[i] < idx[j])
  }

  predicate DeletedIn(es: seq<ServerEvent>, id: string) {
    exists i :: 0 <= i < |es| && es[i].ChatDeleted? && es[i].messageId == id
  }
  predicate PostedIn(es: seq<ServerEvent>, id: string) {
    exists i :: 0 <= i < |es| && es[i].ChatPosted? && es[i].message.id == id
  }

  /** Every message posted in `first`, and deleted neither there nor in `later`, is in the chat. */
  ghost predicate AllIn(first: seq<ServerEvent>, later: seq<ServerEvent>, chat: seq<ChatMessage>) {
    forall id | PostedIn(first, id) && !DeletedIn(first, id) && !DeletedIn(later, id) :: HasMessage(chat, id)
  }

  lemma {:induction false} DeletedIsRemove(es: seq<ServerEvent>, id: string)
    ensures DeletedIn(es, id) <==> Remove(id) in ChatIdEvents(es)
  {
    if DeletedIn(es, id) {
      var i :| 0 <= i < |es| && es[i].ChatDeleted? && es[i].messageId == id;
      assert ChatIdEvents(es)[i] == Remove(id);
    }
    if Remove(id) in ChatIdEvents(es) {
      var i :| 0 <= i < |ChatIdEvents(es)| && ChatIdEvents(es)[i] == Remove(id);
      assert es[i].ChatDeleted?;
    }
  }

  /** Posted and not deleted, a message is there; and only then. */
  lemma {:induction false} PostedLives(es: seq<ServerEvent>, id: string)
    requires NoReuse(ChatIdEvents(es))
    ensures id in ChatIds(ChatRun([], es)) <==> PostedIn(es, id) && !DeletedIn(es, id)
  {
    ChatRunFacts([], es, id);
    MessageFound(ChatRun([], es), id);
    if i :| 0 <= i < |es| && es[i].ChatDeleted? && es[i].messageId == id {
      DeletedMessage(None, es, id, i);
    } else {
      KeptMessage(None, es, id);
      if !PostedIn(es, id) {
        NeverPosted(es, id);
      }
    }
  }

  lemma {:induction false} NoReusePicked(es: seq<ServerEvent>, h: seq<ServerEvent>, idx: seq<nat>)
    requires NoReuse(ChatIdEvents(h)) && Picks(es, h, idx)
    ensures NoReuse(ChatIdEvents(es))
  {
    var picked, all := ChatIdEvents(es), ChatIdEvents(h);
    forall i, j | 0 <= i < j < |picked| && picked[i].Remove? && picked[j].Add? ensures picked[i].id != picked[j].id {
      assert picked[i] == all[idx[i]] && picked[j] == all[idx[j]];
    }
  }

  lemma {:induction false} NoReuseBefore(h: seq<ServerEvent>, k: nat)
    requires NoReuse(ChatIdEvents(h)) && k <= |h|
    ensures NoReuse(ChatIdEvents(h[..k]))
  {
    NoReusePicked(h[..k], h, seq(k, i requires 0 <= i < k => i));
  }

  /** The message under an id, once it is clear that the ids are the same. */
  lemma {:induction false} SameMessage(base: seq<ChatMessage>, first: seq<ServerEvent>, second: seq<ServerEvent>,
                                       x: string)
    requires NoReuse(ChatIdEvents(first))
    requires Spares(ChatIdEvents(first), ChatIds(base)) && AddsNone(ChatIdEvents(second), ChatIds(ChatRun([], first)))
    requires x in ChatIds(ChatRun(ChatRun(base, first), second)) <==> x in ChatIds(ChatRun(base, second))
    ensures FindMessage(ChatRun(ChatRun(base, first), second), x) == FindMessage(ChatRun(base, second), x)
  {
    var v := FindMessage(base, x);
    ChatRunFacts(base, first, x);
    ChatRunFacts(ChatRun(base, first), second, x);
    ChatRunFacts(base, second, x);
    MessageFound(ChatRun(ChatRun(base, first), second), x);
    MessageFound(ChatRun(base, second), x);
    MessageFound(base, x);
    if v.Some? {
      forall j | 0 <= j < |first| && first[j].ChatDeleted? ensures first[j].messageId != x {
        assert ChatIdEvents(first)[j] == Remove(first[j].messageId);
      }
      KeptMessage(v, first, x);
    } else if MessageRun(None, first, x).Some? {
      ChatRunFacts([], first, x);
      MessageFound(ChatRun([], first), x);
      forall j | 0 <= j < |second| && second[j].ChatPosted? ensures second[j].message.id != x {
        assert ChatIdEvents(second)[j] == Add(second[j].message.id);
      }
      NeverPosted(second, x);
    }
  }

  /**
   * A chat, then events that delete nothing of it, then events that post nothing known: the first leave no trace if and
   * only if each message they post, and neither they nor the second delete, was in the chat.
   */
  lemma {:induction false} ChatTraceIff(base: seq<ChatMessage>, first: seq<ServerEvent>, second: seq<ServerEvent>)
    requires Distinct(ChatIds(base)) && NoReuse(ChatIdEvents(first))
    requires Spares(ChatIdEvents(first), ChatIds(base))
    requires AddsNone(ChatIdEvents(second), ChatIds(base))
    requires AddsNone(ChatIdEvents(second), ChatIds(ChatRun([], first)))
    ensures ChatRun(ChatRun(base, first), second) == ChatRun(base, second) <==> AllIn(first, second, base)
  {
    var f, s, ids := ChatIdEvents(first), ChatIdEvents(second), ChatIds(base);
    ChatRunFacts(base, first, "");
    ChatRunFacts(ChatRun(base, first), second, "");
    ChatRunFacts(base, second, "");
    ChatRunFacts([], first, "");
    NoTraceIff(false, ids, f, s);
    forall id ensures (id in ChatIds(ChatRun([], first)) ==> id in ids || Remove(id) in s)
                 <==> (PostedIn(first, id) && !DeletedIn(first, id) && !DeletedIn(second, id) ==>
                       HasMessage(base, id)) {
      PostedLives(first, id);
      DeletedIsRemove(second, id);
      MessageFound(base, id);
    }
    if IdRun(false, IdRun(false, ids, f), s) == IdRun(false, ids, s) {
      IdsStayDistinct(false, ids, s);
      forall x ensures FindMessage(ChatRun(ChatRun(base, first), second), x) == FindMessage(ChatRun(base, second), x) {
        SameMessage(base, first, second, x);
      }
      SameChat(ChatRun(ChatRun(base, first), second), ChatRun(base, second));
    }
  }

  /**
   * Events from before position `k`, replayed on messages of the chat at `k`, then all that came after: this shows
   * those messages and what came after them, and nothing else, if and only if every message posted in the replayed
   * events and deleted neither in them nor later is one of those.
   */
  lemma {:induction false} WindowKeptIff(h: seq<ServerEvent>, k: nat, base: seq<ChatMessage>, first: seq<ServerEvent>,
                                         idx: seq<nat>)
    requires ChatOrderly(h) && k <= |h| && Picks(first, h[..k], idx)
    requires Distinct(ChatIds(base)) && forall id | id in ChatIds(base) :: id in ChatIds(ChatRun([], h[..k]))
    ensures ChatRun(ChatRun(base, first), h[k..]) == ChatRun(base, h[k..]) <==> AllIn(first, h[k..], base)
  {
    NoReuseBefore(h, k);
    NoReusePicked(first, h[..k], idx);
    forall i | 0 <= i < |first| && first[i].ChatDeleted? ensures first[i].messageId !in ChatIds(base) {
      assert h[..k][idx[i]] == first[i];
      assert DeletedIn(h[..k], first[i].messageId);
      PostedLives(h[..k], first[i].messageId);
    }
    forall j | k <= j < |h| && h[j].ChatPosted?
      ensures h[j].message.id !in ChatIds(base) && h[j].message.id !in ChatIds(ChatRun([], first))
    {
      PostedLives(h[..k], h[j].message.id);
      PostedLives(first, h[j].message.id);
      PostedEarlier(h, k, j, first, idx);
    }
    ChatTraceIff(base, first, h[k..]);
  }

  lemma {:induction false} PostedEarlier(h: seq<ServerEvent>, k: nat, j: nat, first: seq<ServerEvent>, idx: seq<nat>)
    requires ChatOrderly(h) && k <= j < |h| && h[j].ChatPosted? && Picks(first, h[..k], idx)
    ensures !PostedIn(h[..k], h[j].message.id) && !PostedIn(first, h[j].message.id)
  {
    forall i | 0 <= i < |first| && first[i].ChatPosted? ensures first[i].message.id != h[j].message.id {
      assert h[idx[i]] == first[i];
    }
  }

  // ---- which messages are shown ----------------------------------------------------------------

  ghost predicate PostedAs(h: seq<ServerEvent>, m: ChatMessage) {
    exists i :: 0 <= i < |h| && h[i].ChatPosted? && h[i].message == m
  }

  /** Messages of the history, each once. */
  ghost predicate OfHistory(chat: seq<ChatMessage>, h: seq<ServerEvent>) {
    Distinct(ChatIds(chat)) && forall m | m in chat :: PostedAs(h, m)
  }

  /** In the list given or posted in what is heard, and not deleted in it. */
  predicate ChatShown(given: seq<ChatMessage>, heard: seq<ServerEvent>, id: string) {
    (HasMessage(given, id) || PostedIn(heard, id)) && !DeletedIn(heard, id)
  }

  lemma {:induction false} PostedIsAdd(es: seq<ServerEvent>, id: string)
    ensures PostedIn(es, id) <==> Add(id) in ChatIdEvents(es)
  {
    if PostedIn(es, id) {
      var i :| 0 <= i < |es| && es[i].ChatPosted? && es[i].message.id == id;
      assert ChatIdEvents(es)[i] == Add(id);
    }
    if Add(id) in ChatIdEvents(es) {
      var i :| 0 <= i < |ChatIdEvents(es)| && ChatIdEvents(es)[i] == Add(id);
      assert es[i].ChatPosted?;
    }
  }

  /** What is shown under an id was there, or was posted. */
  lemma {:induction false} MessageFrom(v: Option<ChatMessage>, es: seq<ServerEvent>, id: string)
    requires MessageRun(v, es, id).Some?
    ensures MessageRun(v, es, id) == v || PostedAs(es, MessageRun(v, es, id).value)
    decreases es
  {
    if es != [] {
      var next, rest := MessageStep(v, es[0], id), es[1..];
      MessageFrom(next, rest, id);
      if PostedAs(rest, MessageRun(v, es, id).value) {
        var i :| 0 <= i < |rest| && rest[i].ChatPosted? && rest[i].message == MessageRun(v, es, id).value;
        assert es[i + 1] == rest[i];
      }
    }
  }

  lemma {:induction false} FoundIn(chat: seq<ChatMessage>, id: string)
    requires FindMessage(chat, id).Some?
    ensures FindMessage(chat, id).value in chat && FindMessage(chat, id).value.id == id
  {
    if chat[0].id != id {
      FoundIn(chat[1..], id);
    }
  }

  lemma {:induction false} OnePost(h: seq<ServerEvent>, m: ChatMessage, n: ChatMessage)
    requires ChatOrderly(h) && PostedAs(h, m) && PostedAs(h, n) && m.id == n.id
    ensures m == n
  {
    var i :| 0 <= i < |h| && h[i].ChatPosted? && h[i].message == m;
    var j :| 0 <= j < |h| && h[j].ChatPosted? && h[j].message == n;
    if i < j {
      assert h[i].message.id != h[j].message.id;
    }
    if j < i {
      assert h[j].message.id != h[i].message.id;
    }
  }

  lemma {:induction false} PickedAs(es: seq<ServerEvent>, h: seq<ServerEvent>, idx: seq<nat>, m: ChatMessage)
    requires Picks(es, h, idx) && PostedAs(es, m)
    ensures PostedAs(h, m)
  {
    var i :| 0 <= i < |es| && es[i].ChatPosted? && es[i].message == m;
    assert h[idx[i]] == es[i];
  }

  /**
   * Any events of the history in order, on messages of it: a message is shown if and only if it was given or is posted
   * in them, and is not deleted in them; and if it is in the room at all, it is shown as it is.
   */
  lemma {:induction false} MessageShown(h: seq<ServerEvent>, given: seq<ChatMessage>, heard: seq<ServerEvent>,
                                        idx: seq<nat>,
                                        id: string)
    requires ChatOrderly(h) && OfHistory(given, h) && Picks(heard, h, idx)
    ensures FindMessage(ChatRun(given, heard), id).Some? <==> ChatShown(given, heard, id)
    ensures ChatShown(given, heard, id) && FindMessage(ChatRun([], h), id).Some? ==>
              FindMessage(ChatRun(given, heard), id) == FindMessage(ChatRun([], h), id)
  {
    NoReusePicked(heard, h, idx);
    ChatRunFacts(given, heard, id);
    ChatRunFacts([], h, id);
    MessageFound(ChatRun(given, heard), id);
    MessageFound(given, id);
    AddedLives(false, ChatIds(given), ChatIdEvents(heard), id);
    PostedIsAdd(heard, id);
    DeletedIsRemove(heard, id);
    if ChatShown(given, heard, id) && FindMessage(ChatRun([], h), id).Some? {
      var m, n := FindMessage(ChatRun(given, heard), id).value, FindMessage(ChatRun([], h), id).value;
      FoundIn(ChatRun(given, heard), id);
      FoundIn(ChatRun([], h), id);
      MessageFrom(FindMessage(given, id), heard, id);
      MessageFrom(None, h, id);
      if PostedAs(heard, m) {
        PickedAs(heard, h, idx, m);
      } else {
        FoundIn(given, id);
      }
      OnePost(h, m, n);
    }
  }

  // ---- in which order ----------------------------------------------------------------------------

  /** Of two messages given, the one made first; of two made at once, the one given first. */
  predicate Before(given: seq<ChatMessage>, m: ChatMessage, n: ChatMessage) {
    m.createdAt < n.createdAt || (m.createdAt == n.createdAt && Precedes(ChatIds(given), m.id, n.id))
  }

  lemma {:induction false} BeforeIsPrecedes(given: seq<ChatMessage>, m: ChatMessage, n: ChatMessage)
    requires ByTime(given) && Distinct(ChatIds(given)) && m in given && n in given && m.id != n.id
    ensures Before(given, m, n) <==> Precedes(ChatIds(given), m.id, n.id)
  {
    var i :| 0 <= i < |given| && given[i] == m;
    var j :| 0 <= j < |given| && given[j] == n;
    PrecedesAt(ChatIds(given), i, j);
  }

  /**
   * Of the messages shown, whatever was announced before one that was given was given too, and made before it: what was
   * given was announced in the order of its times, and ahead of all else.
   */
  ghost predicate AnnouncedByTime(h: seq<ServerEvent>, given: seq<ChatMessage>, heard: seq<ServerEvent>) {
    forall i, j | 0 <= i < j < |h| && h[i].ChatPosted? && h[j].ChatPosted?
                  && ChatShown(given, heard, h[i].message.id) && ChatShown(given, heard, h[j].message.id)
                  && HasMessage(given, h[j].message.id) ::
      HasMessage(given, h[i].message.id) && Before(given, h[i].message, h[j].message)
  }

  lemma {:induction false} ChatFits(h: seq<ServerEvent>, given: seq<ChatMessage>, heard: seq<ServerEvent>,
                                    idx: seq<nat>)
    requires ChatOrderly(h) && OfHistory(given, h) && Picks(heard, h, idx)
    requires forall id | ChatShown(given, heard, id) :: id in ChatIds(ChatRun([], h))
    ensures Fits(false, ChatIds(given), ChatIdEvents(heard), ChatIdEvents(h), idx)
    ensures ChatIds(ChatRun(given, heard)) == IdRun(false, ChatIds(given), ChatIdEvents(heard))
    ensures ChatIds(ChatRun([], h)) == IdRun(false, [], ChatIdEvents(h))
    ensures forall id :: id in ChatIds(ChatRun(given, heard)) <==> ChatShown(given, heard, id)
  {
    ChatRunFacts(given, heard, "");
    ChatRunFacts([], h, "");
    assert ChatIds([]) == [];
    IdsStayDistinct(false, ChatIds(given), ChatIdEvents(heard));
    IdsStayDistinct(false, [], ChatIdEvents(h));
    forall id ensures id in ChatIds(ChatRun(given, heard)) <==> ChatShown(given, heard, id) {
      MessageShown(h, given, heard, idx, id);
      MessageFound(ChatRun(given, heard), id);
    }
    PostsAddedOnce(h);
    forall i | 0 <= i < |heard| ensures idx[i] < |h| && ChatIdEvents(heard)[i] == ChatIdEvents(h)[idx[i]] {
      assert heard[i] == h[idx[i]];
    }
  }

  lemma {:induction false} PostsAddedOnce(h: seq<ServerEvent>)
    requires ChatOrderly(h)
    ensures AddedOnce(ChatIdEvents(h))
  {
    var ids := ChatIdEvents(h);
    forall i, j | 0 <= i < j < |ids| && ids[i].Add? && ids[j].Add? ensures ids[i].id != ids[j].id {
      assert h[i].message.id != h[j].message.id;
    }
  }

  /** The order of times is the order of the list given. */
  lemma {:induction false} GivenByTime(h: seq<ServerEvent>, given: seq<ChatMessage>, heard: seq<ServerEvent>, i: nat,
                                       j: nat)
    requires ChatOrderly(h) && OfHistory(given, h) && ByTime(given)
    requires i < j < |h| && h[i].ChatPosted? && h[j].ChatPosted?
    requires HasMessage(given, h[i].message.id) && HasMessage(given, h[j].message.id)
    ensures Before(given, h[i].message, h[j].message) <==> Precedes(ChatIds(given), h[i].message.id, h[j].message.id)
  {
    GivenIsPosted(h, given, i);
    GivenIsPosted(h, given, j);
    assert h[i].message.id != h[j].message.id;
    BeforeIsPrecedes(given, h[i].message, h[j].message);
  }

  lemma {:induction false} GivenIsPosted(h: seq<ServerEvent>, given: seq<ChatMessage>, i: nat)
    requires ChatOrderly(h) && OfHistory(given, h) && i < |h| && h[i].ChatPosted? && HasMessage(given, h[i].message.id)
    ensures h[i].message in given
  {
    var p :| 0 <= p < |given| && given[p].id == h[i].message.id;
    assert given[p] in given && PostedAs(h, h[i].message);
    OnePost(h, given[p], h[i].message);
  }

  /**
   * Messages of the history, sorted by time, and any of its events in order: what is shown stands in the order in which
   * someone there throughout sees it if and only if what was given was announced in the order of its times, and ahead
   * of the rest.
   */
  lemma {:induction false} ChatOrderIff(h: seq<ServerEvent>, given: seq<ChatMessage>, heard: seq<ServerEvent>,
                                        idx: seq<nat>)
    requires ChatOrderly(h) && OfHistory(given, h) && ByTime(given) && Picks(heard, h, idx)
    requires forall id | ChatShown(given, heard, id) :: id in ChatIds(ChatRun([], h))
    ensures SameOrder(ChatIds(ChatRun(given, heard)), ChatIds(ChatRun([], h))) <==> AnnouncedByTime(h, given, heard)
  {
    ChatFits(h, given, heard, idx);
    OrderIff(false, ChatIds(given), ChatIdEvents(heard), ChatIdEvents(h), idx);
    TimesAreOrder(h, given, heard, ChatIds(ChatRun(given, heard)));
  }

  lemma {:induction false} TimesAreOrder(h: seq<ServerEvent>, given: seq<ChatMessage>, heard: seq<ServerEvent>,
                                         shown: seq<string>)
    requires ChatOrderly(h) && OfHistory(given, h) && ByTime(given)
    requires forall id :: id in shown <==> ChatShown(given, heard, id)
    ensures GivenInOrder(false, ChatIds(given), shown, ChatIdEvents(h)) <==> AnnouncedByTime(h, given, heard)
  {
    var ids, given' := ChatIdEvents(h), ChatIds(given);
    if GivenInOrder(false, given', shown, ids) {
      forall i, j | 0 <= i < j < |h| && h[i].ChatPosted? && h[j].ChatPosted?
                    && ChatShown(given, heard, h[i].message.id) && ChatShown(given, heard, h[j].message.id)
                    && HasMessage(given, h[j].message.id)
        ensures HasMessage(given, h[i].message.id) && Before(given, h[i].message, h[j].message)
      {
        MessageFound(given, h[i].message.id);
        MessageFound(given, h[j].message.id);
        assert ids[i] == Add(h[i].message.id) && ids[j] == Add(h[j].message.id);
        GivenByTime(h, given, heard, i, j);
      }
    }
    if AnnouncedByTime(h, given, heard) {
      forall i, j | 0 <= i < j < |ids| && ids[i].Add? && ids[j].Add? && ids[i].id in shown && ids[j].id in shown
                    && ids[j].id in given'
        ensures ids[i].id in given' && Precedes(given', ids[i].id, ids[j].id)
      {
        assert ids[i].id == h[i].message.id && ids[j].id == h[j].message.id;
        MessageFound(given, h[i].message.id);
        MessageFound(given, h[j].message.id);
        GivenByTime(h, given, heard, i, j);
      }
    }
  }

  // ---- where the order breaks ----------------------------------------------------------------------

  /**
   * More posts than a snapshot holds: it brings the newer of two messages, the older was held, and its replay puts it
   * behind.
   */
  lemma {:induction false} OlderMessageLandsLast(roomId: string, m1: ChatMessage, m2: ChatMessage)
    requires m1.id != m2.id && m1.createdAt < m2.createdAt
    ensures var h := [ChatPosted(roomId, m1), ChatPosted(roomId, m2)];
            && ChatRun([], h) == [m1, m2] && IsNewest([m2], 1, h, (id: string) => 2)
            && ChatRun([m2], h) == [m2, m1]
  {
    var h := [ChatPosted(roomId, m1), ChatPosted(roomId, m2)];
    assert h[1..] == [h[1]] && [h[1]][1..] == [] && h[..2] == h;
    TwoPosts([], h);
    TwoPosts([m2], h);
    assert [m2][0].id == m2.id && [m2, m1][0].id == m2.id;
    assert ChatAfter([], h[0]) == [m1] && ChatAfter([m1], h[1]) == [m1, m2];
    assert ChatAfter([m2], h[0]) == [m2, m1] && ChatAfter([m2, m1], h[1]) == [m2, m1];
    FindOfTwo(m1, m2);
  }

  lemma {:induction false} FindOfTwo(a: ChatMessage, b: ChatMessage)
    requires a.id != b.id
    ensures forall id :: FindMessage([a, b], id) == if id == a.id then Some(a) else if id == b.id then Some(b) else None
  {
    assert [a, b][1..] == [b] && [b][1..] == [];
    forall id ensures FindMessage([a, b], id) == if id == a.id then Some(a) else if id == b.id then Some(b) else None {
      assert FindMessage([b], id) == if id == b.id then Some(b) else FindMessage([], id);
    }
  }

  /**
   * Two messages made one after the other and announced the other way round: someone there sees the second first. The
   * snapshot brings them sorted by time, and replaying both posts leaves them so.
   */
  lemma {:induction false} CrossingPosts(roomId: string, m1: ChatMessage, m2: ChatMessage, limit: nat)
    requires m1.id != m2.id && m1.createdAt < m2.createdAt && limit >= 2
    ensures var h := [ChatPosted(roomId, m2), ChatPosted(roomId, m1)];
            && ChatRun([], h) == [m2, m1] && IsNewest([m1, m2], limit, h, (id: string) => 2)
            && ChatRun([m1, m2], h) == [m1, m2]
  {
    var h := [ChatPosted(roomId, m2), ChatPosted(roomId, m1)];
    assert h[1..] == [h[1]] && [h[1]][1..] == [] && h[..2] == h;
    TwoPosts([], h);
    TwoPosts([m1, m2], h);
    assert [m1, m2][0].id == m1.id && [m1, m2][1].id == m2.id;
    assert ChatAfter([], h[0]) == [m2] && ChatAfter([m2], h[1]) == [m2, m1];
    assert ChatAfter([m1, m2], h[0]) == [m1, m2] && ChatAfter([m1, m2], h[1]) == [m1, m2];
    FindOfTwo(m2, m1);
  }

  lemma {:induction false} TwoPosts(chat: seq<ChatMessage>, h: seq<ServerEvent>)
    requires |h| == 2
    ensures ChatRun(chat, h) == ChatAfter(ChatAfter(chat, h[0]), h[1])
  {
    var next := ChatAfter(chat, h[0]);
    assert ChatRun(next, h[1..]) == ChatRun(ChatAfter(next, h[1..][0]), h[1..][1..]);
  }
}
