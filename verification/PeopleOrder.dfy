/**
 * The order of people in a room under replay (`upsertParticipant` and the departures of
 * client/src/state/roomReducer.ts): who changes places when events are applied to a list they already led to.
 */
module PeopleOrder {
  import opened Options
  import opened Sequences
  import opened Sorting
  import opened RoomReducer
  import opened ReplayLists

  function PeopleAfter(list: seq<Participant>, event: ServerEvent): seq<Participant> {
    if event.ParticipantRemoved? then WithoutParticipant(list, event.participantId) else ParticipantsAfter(list, event)
  }

  function PeopleRun(list: seq<Participant>, events: seq<ServerEvent>): seq<Participant>
    decreases events
  {
    if events == [] then list else PeopleRun(PeopleAfter(list, events[0]), events[1..])
  }

  function PeopleIds(list: seq<Participant>): seq<string> {
    if list == [] then [] else [list[0].id] + PeopleIds(list[1..])
  }

  function PersonEvent(event: ServerEvent): IdEvent {
    match event
    case ParticipantJoined(_, participant) => Add(participant.id)
    case ParticipantLeft(_, id) => Remove(id)
    case ParticipantRemoved(_, id) => Remove(id)
    case _ => NoChange
  }

  function PersonEvents(events: seq<ServerEvent>): seq<IdEvent> {
    if events == [] then [] else [PersonEvent(events[0])] + PersonEvents(events[1..])
  }

  // ---- ids only ------------------------------------------------------------------------------

  /** The ids removed at some time. */
  function Removed(events: seq<IdEvent>): set<string> {
    if events == [] then {} else (if events[0].Remove? then {events[0].id} else {}) + Removed(events[1..])
  }

  /** The ids of a list that are in `those`, or those that are not, in order. */
  function Only(ids: seq<string>, those: set<string>, inside: bool): seq<string> {
    if ids == [] then [] else (if (ids[0] in those) == inside then [ids[0]] else []) + Only(ids[1..], those, inside)
  }

  lemma {:induction false} OnlyMembers(ids: seq<string>, those: set<string>, inside: bool)
    ensures forall x :: x in Only(ids, those, inside) <==> x in ids && (x in those) == inside
  {
    if ids != [] {
      OnlyMembers(ids[1..], those, inside);
      assert ids == [ids[0]] + ids[1..];
    }
  }

  lemma {:induction false} OnlyAppend(ids: seq<string>, x: string, those: set<string>, inside: bool)
    ensures Only(ids + [x], those, inside) == Only(ids, those, inside) + if (x in those) == inside then [x] else []
  {
    if ids == [] {
      assert ids + [x] == [x] && [x][1..] == [];
    } else {
      TailOfAppend(ids, [x]);
      OnlyAppend(ids[1..], x, those, inside);
    }
  }

  lemma {:induction false} OnlyWithout(ids: seq<string>, x: string, those: set<string>)
    ensures Only(Without(ids, x), those, true) == Only(ids, those - {x}, true)
    ensures x in those ==> Only(Without(ids, x), those, false) == Only(ids, those, false)
  {
    if ids != [] {
      OnlyWithout(ids[1..], x, those);
      if ids[0] != x {
        assert ([ids[0]] + Without(ids[1..], x))[1..] == Without(ids[1..], x);
      } else {
        assert Without(ids, x) == Without(ids[1..], x);
        assert Only(ids, those - {x}, true) == [] + Only(ids[1..], those - {x}, true);
        assert x in those ==> Only(ids, those, false) == [] + Only(ids[1..], those, false);
      }
    }
  }

  /** Those who leave end up in the order of their return, whatever the list was before. */
  lemma {:induction false} MoversSettle(a: seq<string>, b: seq<string>, events: seq<IdEvent>, movers: set<string>)
    requires Only(a, movers - Removed(events), true) == Only(b, movers - Removed(events), true)
    ensures Only(IdRun(false, a, events), movers, true) == Only(IdRun(false, b, events), movers, true)
    decreases events
  {
    var settled := movers - Removed(events);
    if events == [] {
      assert settled == movers;
    } else {
      var event, rest := events[0], events[1..];
      match event {
        case NoChange => assert Removed(rest) == Removed(events);
        case Add(x) =>
          assert Removed(rest) == Removed(events);
          OnlyMembers(a, settled, true);
          OnlyMembers(b, settled, true);
          assert x in settled ==> (x in a <==> x in Only(a, settled, true));
          assert x in settled ==> (x in b <==> x in Only(b, settled, true));
          OnlyAppend(a, x, settled, true);
          OnlyAppend(b, x, settled, true);
        case Remove(x) =>
          assert (movers - Removed(rest)) - {x} == settled;
          OnlyWithout(a, x, movers - Removed(rest));
          OnlyWithout(b, x, movers - Removed(rest));
      }
      MoversSettle(IdStep(false, a, event), IdStep(false, b, event), rest, movers);
    }
  }

  /** All who join and are not among the movers are there already. */
  predicate OthersThere(ids: seq<string>, events: seq<IdEvent>, movers: set<string>) {
    && Removed(events) <= movers
    && forall i | 0 <= i < |events| && events[i].Add? :: events[i].id in movers || events[i].id in ids
  }

  lemma {:induction false} OthersStayThere(ids: seq<string>, events: seq<IdEvent>, movers: set<string>)
    requires events != [] && OthersThere(ids, events, movers)
    ensures OthersThere(IdStep(false, ids, events[0]), events[1..], movers)
  {
    if events[0].Remove? {
      WithoutMembers(ids, events[0].id);
    }
    forall i | 0 <= i < |events[1..]| && events[1..][i].Add?
      ensures events[1..][i].id in movers || events[1..][i].id in IdStep(false, ids, events[0])
    {
      assert events[i + 1] == events[1..][i];
    }
  }

  /** They keep their order. */
  lemma {:induction false} OthersKeepOrder(ids: seq<string>, events: seq<IdEvent>, movers: set<string>)
    requires OthersThere(ids, events, movers)
    ensures Only(IdRun(false, ids, events), movers, false) == Only(ids, movers, false)
    decreases events
  {
    if events != [] {
      OthersStayThere(ids, events, movers);
      OthersKeepOrder(IdStep(false, ids, events[0]), events[1..], movers);
      match events[0]
      case NoChange =>
      case Add(x) => OnlyAppend(ids, x, movers, false);
      case Remove(x) => OnlyWithout(ids, x, movers);
    }
  }

  /** After any of `settled` come only movers. */
  predicate MoversLast(ids: seq<string>, settled: set<string>, movers: set<string>) {
    ids == [] || ((ids[0] in settled ==> forall x | x in ids[1..] :: x in movers)
                  && MoversLast(ids[1..], settled, movers))
  }

  lemma {:induction false} LastAppended(ids: seq<string>, x: string, settled: set<string>, movers: set<string>)
    requires MoversLast(ids, settled, movers) && x in movers
    ensures MoversLast(ids + [x], settled, movers)
  {
    if ids == [] {
      assert ids + [x] == [x] && [x][1..] == [];
    } else {
      TailOfAppend(ids, [x]);
      LastAppended(ids[1..], x, settled, movers);
    }
  }

  lemma {:induction false} LastWithout(ids: seq<string>, x: string, settled: set<string>, more: set<string>,
                                       movers: set<string>)
    requires MoversLast(ids, settled, movers) && more <= settled + {x}
    ensures MoversLast(Without(ids, x), more, movers)
  {
    if ids != [] {
      LastWithout(ids[1..], x, settled, more, movers);
      WithoutMembers(ids[1..], x);
      if ids[0] != x {
        assert ([ids[0]] + Without(ids[1..], x))[1..] == Without(ids[1..], x);
      } else {
        assert Without(ids, x) == Without(ids[1..], x);
      }
    }
  }

  /** Whoever has left and come back by the end of the events stands behind all who did not leave. */
  lemma {:induction false} MoversEndLast(ids: seq<string>, events: seq<IdEvent>, movers: set<string>)
    requires OthersThere(ids, events, movers) && MoversLast(ids, movers - Removed(events), movers)
    ensures MoversLast(IdRun(false, ids, events), movers, movers)
    decreases events
  {
    var settled := movers - Removed(events);
    if events == [] {
      assert settled == movers;
    } else {
      var event, rest := events[0], events[1..];
      OthersStayThere(ids, events, movers);
      match event {
        case NoChange => assert movers - Removed(rest) == settled;
        case Add(x) =>
          assert movers - Removed(rest) == settled;
          if x !in ids {
            LastAppended(ids, x, settled, movers);
          }
        case Remove(x) => LastWithout(ids, x, settled, movers - Removed(rest), movers);
      }
      MoversEndLast(IdStep(false, ids, event), rest, movers);
    }
  }

  lemma {:induction false} NobodySettled(ids: seq<string>, movers: set<string>)
    ensures MoversLast(ids, {}, movers) && Only(ids, {}, true) == []
  {
    if ids != [] {
      NobodySettled(ids[1..], movers);
    }
  }

  lemma {:induction false} AllMovers(ids: seq<string>, movers: set<string>)
    requires forall x | x in ids :: x in movers
    ensures Only(ids, movers, false) == []
  {
    if ids != [] {
      AllMovers(ids[1..], movers);
    }
  }

  lemma {:induction false} OthersThenMovers(ids: seq<string>, movers: set<string>)
    requires MoversLast(ids, movers, movers)
    ensures ids == Only(ids, movers, false) + Only(ids, movers, true)
  {
    if ids != [] {
      OthersThenMovers(ids[1..], movers);
      assert ids == [ids[0]] + ids[1..];
      if ids[0] in movers {
        AllMovers(ids[1..], movers);
      } else {
        Assoc([ids[0]], Only(ids[1..], movers, false), Only(ids[1..], movers, true));
      }
    }
  }

  /** Added and never removed, an id is there in the end. */
  lemma {:induction false} AddedIsThere(ids: seq<string>, events: seq<IdEvent>, x: string)
    requires x !in Removed(events) && (x in ids || Add(x) in events)
    ensures x in IdRun(false, ids, events)
    decreases events
  {
    if events != [] {
      if events[0].Remove? {
        WithoutMembers(ids, events[0].id);
      }
      assert events == [events[0]] + events[1..];
      AddedIsThere(IdStep(false, ids, events[0]), events[1..], x);
    }
  }

  lemma {:induction false} OrderKeptIff(ids: seq<string>, events: seq<IdEvent>)
    ensures var once := IdRun(false, ids, events);
            IdRun(false, once, events) == once <==> MoversLast(once, Removed(events), Removed(events))
  {
    var once, movers := IdRun(false, ids, events), Removed(events);
    var twice := IdRun(false, once, events);
    assert movers - Removed(events) == {};
    NobodySettled(ids, movers);
    NobodySettled(once, movers);
    MoversSettle(once, ids, events, movers);
    forall i | 0 <= i < |events| && events[i].Add? ensures events[i].id in movers || events[i].id in once {
      if events[i].id !in movers {
        assert events[i] in events;
        AddedIsThere(ids, events, events[i].id);
      }
    }
    OthersKeepOrder(once, events, movers);
    MoversEndLast(once, events, movers);
    OthersThenMovers(twice, movers);
    if MoversLast(once, movers, movers) {
      OthersThenMovers(once, movers);
    }
  }

  // ---- people ----------------------------------------------------------------------------------

  lemma {:induction false} IdsOfPeople(list: seq<Participant>)
    ensures |PeopleIds(list)| == |list| && forall i | 0 <= i < |list| :: PeopleIds(list)[i] == list[i].id
  {
    if list != [] {
      IdsOfPeople(list[1..]);
    }
  }

  lemma {:induction false} UpsertIds(list: seq<Participant>, p: Participant)
    ensures PeopleIds(UpsertParticipant(list, p)) == IdStep(false, PeopleIds(list), Add(p.id))
  {
    if list == [] {
      assert [p][1..] == [];
    } else if list[0].id == p.id {
      assert ([p] + list[1..])[1..] == list[1..];
    } else {
      UpsertIds(list[1..], p);
      assert ([list[0]] + UpsertParticipant(list[1..], p))[1..] == UpsertParticipant(list[1..], p);
      Assoc([list[0].id], PeopleIds(list[1..]), [p.id]);
    }
  }

  lemma {:induction false} WithoutIds(list: seq<Participant>, id: string)
    ensures PeopleIds(WithoutParticipant(list, id)) == Without(PeopleIds(list), id)
  {
    if list != [] {
      WithoutIds(list[1..], id);
      assert PeopleIds(list)[1..] == PeopleIds(list[1..]);
      var rest := WithoutParticipant(list[1..], id);
      if list[0].id == id {
        assert WithoutParticipant(list, id) == rest;
      } else {
        assert ([list[0]] + rest)[1..] == rest;
      }
    }
  }

  lemma {:induction false} PeopleRunFacts(list: seq<Participant>, events: seq<ServerEvent>)
    requires UniqueParticipants(list)
    ensures UniqueParticipants(PeopleRun(list, events))
    ensures RosterOf(PeopleRun(list, events)) == RosterRun(RosterOf(list), events)
    ensures PeopleIds(PeopleRun(list, events)) == IdRun(false, PeopleIds(list), PersonEvents(events))
    decreases events
  {
    if events != [] {
      PeopleStepFacts(list, events[0]);
      PeopleRunFacts(PeopleAfter(list, events[0]), events[1..]);
      assert PersonEvents(events)[1..] == PersonEvents(events[1..]);
    }
  }

  lemma {:induction false} PeopleStepFacts(list: seq<Participant>, event: ServerEvent)
    requires UniqueParticipants(list)
    ensures UniqueParticipants(PeopleAfter(list, event))
    ensures RosterOf(PeopleAfter(list, event)) == RosterStep(RosterOf(list), event)
    ensures PeopleIds(PeopleAfter(list, event)) == IdStep(false, PeopleIds(list), PersonEvent(event))
  {
    match event
    case ParticipantJoined(_, participant) =>
      UpsertRoster(list, participant);
      UpsertIds(list, participant);
    case ParticipantLeft(_, id) => LeavingFacts(list, id);
    case ParticipantRemoved(_, id) => LeavingFacts(list, id);
    case _ =>
  }

  lemma {:induction false} LeavingFacts(list: seq<Participant>, id: string)
    requires UniqueParticipants(list)
    ensures UniqueParticipants(WithoutParticipant(list, id))
    ensures RosterOf(WithoutParticipant(list, id)) == RosterOf(list) - {id}
    ensures PeopleIds(WithoutParticipant(list, id)) == Without(PeopleIds(list), id)
  {
    WithoutUnique(list, id);
    WithoutRoster(list, id);
    WithoutIds(list, id);
  }

  /** A list is its ids in order, and the person under each. */
  lemma {:induction false} SamePeople(a: seq<Participant>, b: seq<Participant>)
    requires PeopleIds(a) == PeopleIds(b) && RosterOf(a) == RosterOf(b) && UniqueParticipants(a)
    requires UniqueParticipants(b)
    ensures a == b
  {
    IdsOfPeople(a);
    IdsOfPeople(b);
    forall i | 0 <= i < |a| ensures a[i] == b[i] {
      PersonAt(a, i);
      PersonAt(b, i);
    }
  }

  lemma {:induction false} PersonAt(list: seq<Participant>, i: nat)
    requires i < |list| && UniqueParticipants(list)
    ensures list[i].id in RosterOf(list) && RosterOf(list)[list[i].id] == list[i]
  {
    if i > 0 {
      PersonAt(list[1..], i - 1);
      assert list[0].id != list[i].id;
    }
  }

  /** `id` left, or was removed, in the course of the events. */
  predicate LeftDuring(events: seq<ServerEvent>, id: string) {
    exists i :: 0 <= i < |events| && PersonEvent(events[i]) == Remove(id)
  }

  lemma {:induction false} LeftIsRemoved(events: seq<ServerEvent>, id: string)
    ensures LeftDuring(events, id) <==> id in Removed(PersonEvents(events))
  {
    if events != [] {
      var rest := events[1..];
      LeftIsRemoved(rest, id);
      assert PersonEvents(events)[1..] == PersonEvents(rest);
      if LeftDuring(rest, id) {
        var i :| 0 <= i < |rest| && PersonEvent(rest[i]) == Remove(id);
        assert PersonEvent(events[i + 1]) == Remove(id);
      }
      if i :| 0 <= i < |events| && PersonEvent(events[i]) == Remove(id) && i > 0 {
        assert PersonEvent(rest[i - 1]) == Remove(id);
      }
    }
  }

  lemma {:induction false} MoversLastIff(ids: seq<string>, movers: set<string>)
    ensures MoversLast(ids, movers, movers) <==> forall i, j | 0 <= i < j < |ids|
              && ids[i] in movers :: ids[j] in movers
  {
    if ids != [] {
      var rest := ids[1..];
      MoversLastIff(rest, movers);
      if MoversLast(ids, movers, movers) {
        forall i, j | 0 <= i < j < |ids| && ids[i] in movers ensures ids[j] in movers {
          assert ids[j] == rest[j - 1] && ids[j] in rest;
          assert i > 0 ==> ids[i] == rest[i - 1];
        }
      }
      if forall i, j | 0 <= i < j < |ids| && ids[i] in movers :: ids[j] in movers {
        forall i, j | 0 <= i < j < |rest| && rest[i] in movers ensures rest[j] in movers {
          assert rest[i] == ids[i + 1] && rest[j] == ids[j + 1];
        }
        forall x | x in rest && ids[0] in movers ensures x in movers {
          var j :| 0 <= j < |rest| && rest[j] == x;
          assert ids[j + 1] == x;
        }
      }
    }
  }

  /**
   * Events applied to a list of people they already led to leave it as it is if and only if nobody in it who left
   * during them, and came back, stands before someone who did not leave.
   */
  lemma {:induction false} PeopleOrderKeptIff(list: seq<Participant>, events: seq<ServerEvent>)
    requires UniqueParticipants(list)
    ensures var once := PeopleRun(list, events);
            PeopleRun(once, events) == once <==>
              forall i, j | 0 <= i < j < |once| && LeftDuring(events, once[i].id) :: LeftDuring(events, once[j].id)
  {
    var once := PeopleRun(list, events);
    var ids, movers := PeopleIds(once), Removed(PersonEvents(events));
    PeopleRunFacts(list, events);
    PeopleRunFacts(once, events);
    ReplayedRoster(RosterOf(list), events);
    OrderKeptIff(PeopleIds(list), PersonEvents(events));
    if PeopleIds(PeopleRun(once, events)) == ids {
      SamePeople(PeopleRun(once, events), once);
    }
    MoversLastIff(ids, movers);
    IdsOfPeople(once);
    forall i | 0 <= i < |once| ensures LeftDuring(events, once[i].id) <==> ids[i] in movers {
      LeftIsRemoved(events, once[i].id);
    }
  }
}
