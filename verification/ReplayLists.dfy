/** Rosters and id lists under replay: what the same events do when they are applied a second time. */
module ReplayLists {
  import opened Jobs
  import opened Options
  import opened Sequences
  import opened Sorting
  import opened RoomReducer

  // ---- participants: the last event about someone decides ----------------------------------

  type Roster = map<string, Participant>

  function RosterOf(list: seq<Participant>): Roster {
    if list == [] then map[] else RosterOf(list[1..])[list[0].id := list[0]]
  }

  predicate UniqueParticipants(list: seq<Participant>) {
    forall i, j | 0 <= i < j < |list| :: list[i].id != list[j].id
  }

  function RosterStep(roster: Roster, event: ServerEvent): Roster {
    match event
    case ParticipantJoined(_, participant) => roster[participant.id := participant]
    case ParticipantLeft(_, id) => roster - {id}
    case ParticipantRemoved(_, id) => roster - {id}
    case _ => roster
  }

  function RosterRun(roster: Roster, events: seq<ServerEvent>): Roster
    decreases events
  {
    if events == [] then roster else RosterRun(RosterStep(roster, events[0]), events[1..])
  }

  lemma {:induction false} RosterHas(list: seq<Participant>, id: string)
    ensures id in RosterOf(list) <==> exists i :: 0 <= i < |list| && list[i].id == id
  {
    if list != [] {
      RosterHas(list[1..], id);
      if id in RosterOf(list) && id != list[0].id {
        var i :| 0 <= i < |list[1..]| && list[1..][i].id == id;
        assert list[i + 1].id == id;
      }
      if i :| 0 <= i < |list| && list[i].id == id && id != list[0].id {
        assert list[1..][i - 1].id == id;
      }
    }
  }

  lemma {:induction false} UpsertRoster(list: seq<Participant>, p: Participant)
    requires UniqueParticipants(list)
    ensures RosterOf(UpsertParticipant(list, p)) == RosterOf(list)[p.id := p]
    ensures UniqueParticipants(UpsertParticipant(list, p))
    ensures forall i | 0 <= i < |UpsertParticipant(list, p)| ::
              UpsertParticipant(list, p)[i] == p || UpsertParticipant(list, p)[i] in list
  {
    if list != [] && list[0].id != p.id {
      UpsertRoster(list[1..], p);
      var rest := UpsertParticipant(list[1..], p);
      forall i | 0 <= i < |rest| ensures rest[i].id != list[0].id {
        assert rest[i] == p || rest[i] in list[1..];
      }
    } else if list != [] {
      RosterHas(list[1..], p.id);
    }
  }

  lemma {:induction false} WithoutUnique(list: seq<Participant>, id: string)
    requires UniqueParticipants(list)
    ensures UniqueParticipants(WithoutParticipant(list, id))
    ensures forall p | p in WithoutParticipant(list, id) :: p in list
  {
    if list != [] {
      WithoutUnique(list[1..], id);
      var rest := WithoutParticipant(list[1..], id);
      forall i | 0 <= i < |rest| ensures rest[i].id != list[0].id {
        assert rest[i] in list[1..];
      }
    }
  }

  lemma {:induction false} WithoutRoster(list: seq<Participant>, id: string)
    requires UniqueParticipants(list)
    ensures RosterOf(WithoutParticipant(list, id)) == RosterOf(list) - {id}
  {
    if list != [] {
      var first, rest, was := list[0], WithoutParticipant(list[1..], id), RosterOf(list[1..]);
      WithoutRoster(list[1..], id);
      if first.id == id {
        RosterHas(list[1..], id);
        assert was[id := first] - {id} == was - {id};
        assert [] + rest == rest;
      } else {
        assert was[first.id := first] - {id} == (was - {id})[first.id := first];
        assert ([first] + rest)[1..] == rest;
      }
    }
  }

  function At(roster: Roster, id: string): Option<Participant> { if id in roster then Some(roster[id]) else None }

  /** What an event says of someone: that they are there, that they are not, or nothing. */
  function WordOn(event: ServerEvent, id: string): Option<Option<Participant>> {
    match event
    case ParticipantJoined(_, participant) => if participant.id == id then Some(Some(participant)) else None
    case ParticipantLeft(_, left) => if left == id then Some(None) else None
    case ParticipantRemoved(_, removed) => if removed == id then Some(None) else None
    case _ => None
  }

  /** The last thing said of someone. */
  function LastWord(events: seq<ServerEvent>, id: string): Option<Option<Participant>>
    decreases events
  {
    if events == [] then None
    else if LastWord(events[1..], id).Some? then LastWord(events[1..], id)
    else WordOn(events[0], id)
  }

  predicate Mentioned(events: seq<ServerEvent>, id: string) { LastWord(events, id).Some? }

  lemma {:induction false} LastWordAppend(p: seq<ServerEvent>, q: seq<ServerEvent>, id: string)
    ensures LastWord(p + q, id) == if LastWord(q, id).Some? then LastWord(q, id) else LastWord(p, id)
    decreases p
  {
    if p == [] {
      assert p + q == q;
    } else {
      TailOfAppend(p, q);
      LastWordAppend(p[1..], q, id);
    }
  }

  lemma {:induction false} SaidIsMentioned(events: seq<ServerEvent>, id: string, i: nat)
    requires i < |events| && WordOn(events[i], id).Some?
    ensures Mentioned(events, id)
    decreases events
  {
    if i > 0 {
      SaidIsMentioned(events[1..], id, i - 1);
    }
  }

  /** The last event about someone decides, whatever the roster was before. */
  lemma {:induction false} LastDecides(a: Roster, events: seq<ServerEvent>, id: string)
    ensures At(RosterRun(a, events), id) == if Mentioned(events, id) then LastWord(events, id).value else At(a, id)
    decreases events
  {
    if events != [] {
      LastDecides(RosterStep(a, events[0]), events[1..], id);
    }
  }

  /** Who is there does not change when the same events are applied once more. */
  lemma {:induction false} ReplayedRoster(a: Roster, events: seq<ServerEvent>)
    ensures RosterRun(RosterRun(a, events), events) == RosterRun(a, events)
  {
    var once := RosterRun(a, events);
    var twice := RosterRun(once, events);
    forall id ensures At(twice, id) == At(once, id) {
      LastDecides(a, events, id);
      LastDecides(once, events, id);
    }
    SameRosters(twice, once);
  }

  lemma {:induction false} SameRosters(a: Roster, b: Roster)
    requires forall id :: At(a, id) == At(b, id)
    ensures a == b
  {
    assert forall id | id in a :: At(a, id) == At(b, id);
    assert forall id | id in b :: At(a, id) == At(b, id);
  }

  // ---- the order of lists whose ids are never reused ----------------------------------------

  datatype IdEvent = Add(id: string) | Remove(id: string) | NoChange

  function Without(ids: seq<string>, id: string): seq<string> {
    if ids == [] then [] else (if ids[0] == id then [] else [ids[0]]) + Without(ids[1..], id)
  }

  /** A new id goes to the front (the feed) or the back (the chat); a known one stays where it is. */
  function IdStep(front: bool, ids: seq<string>, event: IdEvent): seq<string> {
    match event
    case Add(id) => if id in ids then ids else if front then [id] + ids else ids + [id]
    case Remove(id) => Without(ids, id)
    case NoChange => ids
  }

  function IdRun(front: bool, ids: seq<string>, events: seq<IdEvent>): seq<string>
    decreases events
  {
    if events == [] then ids else IdRun(front, IdStep(front, ids, events[0]), events[1..])
  }

  /** A deleted id is never used again. */
  ghost predicate NoReuse(events: seq<IdEvent>) {
    forall i, j | 0 <= i < j < |events| && events[i].Remove? && events[j].Add? :: events[i].id != events[j].id
  }

  lemma {:induction false} WithoutMembers(ids: seq<string>, id: string)
    ensures forall x :: x in Without(ids, id) <==> x in ids && x != id
    ensures id !in ids ==> Without(ids, id) == ids
  {
    if ids != [] {
      WithoutMembers(ids[1..], id);
      assert ids == [ids[0]] + ids[1..];
    }
  }

  lemma {:induction false} WithoutAppend(x: seq<string>, y: seq<string>, id: string)
    ensures Without(x + y, id) == Without(x, id) + Without(y, id)
  {
    if x == [] {
      assert x + y == y;
    } else {
      WithoutAppend(x[1..], y, id);
      assert (x + y)[1..] == x[1..] + y;
      Assoc(if x[0] == id then [] else [x[0]], Without(x[1..], id), Without(y, id));
    }
  }

  lemma {:induction false} StaysGone(front: bool, ids: seq<string>, events: seq<IdEvent>, id: string)
    requires id !in ids && forall i | 0 <= i < |events| && events[i].Add? :: events[i].id != id
    ensures id !in IdRun(front, ids, events)
    decreases events
  {
    if events != [] {
      if events[0].Remove? {
        WithoutMembers(ids, events[0].id);
      }
      StaysGone(front, IdStep(front, ids, events[0]), events[1..], id);
    }
  }

  /** Added and not removed, an id is there; and only then, but for those there before. */
  lemma {:induction false} AddedLives(front: bool, ids: seq<string>, events: seq<IdEvent>, x: string)
    requires NoReuse(events)
    ensures x in IdRun(front, ids, events) <==> Remove(x) !in events && (x in ids || Add(x) in events)
    decreases events
  {
    if events != [] {
      var event, rest := events[0], events[1..];
      assert events == [event] + rest;
      if event.Remove? {
        WithoutMembers(ids, event.id);
      }
      if event == Remove(x) {
        StaysGone(front, IdStep(front, ids, event), rest, x);
      } else {
        AddedLives(front, IdStep(front, ids, event), rest, x);
      }
    }
  }

  function Beside(front: bool, extra: seq<string>, ids: seq<string>): seq<string> {
    if front then extra + ids else ids + extra
  }

  /** `extra` holds ids that are in the list now and not in the end. */
  ghost predicate Passing(extra: seq<string>, now: seq<string>, final: seq<string>) {
    forall x | x in extra :: x in now && x !in final
  }

  lemma {:induction false} AddBeside(front: bool, now: seq<string>, extra: seq<string>, final: seq<string>, id: string)
    requires Passing(extra, now, final)
    ensures var extra' := if id in final || id in extra then extra else Beside(front, [id], extra);
            && Passing(extra', IdStep(front, now, Add(id)), final)
            && IdStep(front, Beside(front, extra, final), Add(id)) == Beside(front, extra', final)
  {
    assert [id] + (extra + final) == ([id] + extra) + final;
    assert (final + extra) + [id] == final + (extra + [id]);
  }

  lemma {:induction false} RemoveBeside(front: bool, now: seq<string>, extra: seq<string>, final: seq<string>,
                                        id: string)
    requires Passing(extra, now, final) && id !in final
    ensures Passing(Without(extra, id), Without(now, id), final)
    ensures Without(Beside(front, extra, final), id) == Beside(front, Without(extra, id), final)
  {
    WithoutMembers(now, id);
    WithoutMembers(final, id);
    WithoutMembers(extra, id);
    if front { WithoutAppend(extra, final, id); } else { WithoutAppend(final, extra, id); }
  }

  /** Ids added and removed again within the events come and go beside the final list, which keeps its order. */
  lemma {:induction false} ReplayedIds(front: bool, a: seq<string>, extra: seq<string>, events: seq<IdEvent>)
    requires NoReuse(events) && Passing(extra, a, IdRun(front, a, events))
    ensures IdRun(front, Beside(front, extra, IdRun(front, a, events)), events) == IdRun(front, a, events)
    decreases events
  {
    var final := IdRun(front, a, events);
    if events == [] {
      if extra != [] {
        SomeMember(extra);
        assert false;
      }
      assert Beside(front, [], final) == final;
    } else {
      var event, rest := events[0], events[1..];
      var a' := IdStep(front, a, event);
      match event
      case NoChange => ReplayedIds(front, a', extra, rest);
      case Add(id) =>
        AddBeside(front, a, extra, final, id);
        ReplayedIds(front, a', if id in final || id in extra then extra else Beside(front, [id], extra), rest);
      case Remove(id) =>
        WithoutMembers(a, id);
        StaysGone(front, a', rest, id);
        RemoveBeside(front, a, extra, final, id);
        ReplayedIds(front, a', Without(extra, id), rest);
    }
  }

  // ---- replaying on a list that is not what the events led to ----------------------------------

  /** The ids not in `base`. */
  function NotIn(ids: seq<string>, base: seq<string>): seq<string> {
    if ids == [] then [] else (if ids[0] in base then [] else [ids[0]]) + NotIn(ids[1..], base)
  }

  lemma {:induction false} NotInMembers(ids: seq<string>, base: seq<string>)
    ensures forall x :: x in NotIn(ids, base) <==> x in ids && x !in base
  {
    if ids != [] {
      NotInMembers(ids[1..], base);
      assert ids == [ids[0]] + ids[1..];
    }
  }

  lemma {:induction false} NotInAppend(x: seq<string>, y: seq<string>, base: seq<string>)
    ensures NotIn(x + y, base) == NotIn(x, base) + NotIn(y, base)
  {
    if x == [] {
      assert x + y == y;
    } else {
      NotInAppend(x[1..], y, base);
      TailOfAppend(x, y);
      Assoc(if x[0] in base then [] else [x[0]], NotIn(x[1..], base), NotIn(y, base));
    }
  }

  lemma {:induction false} NotInWithout(ids: seq<string>, base: seq<string>, id: string)
    ensures NotIn(Without(ids, id), base) == Without(NotIn(ids, base), id)
  {
    if ids != [] {
      NotInWithout(ids[1..], base, id);
      var first, kept := if ids[0] == id then [] else [ids[0]], if ids[0] in base then [] else [ids[0]];
      NotInAppend(first, Without(ids[1..], id), base);
      WithoutAppend(kept, NotIn(ids[1..], base), id);
      assert NotIn([ids[0]], base) == kept + [] && Without([ids[0]], id) == first + [];
    }
  }

  /** No event removes an id of `base`. */
  predicate Spares(events: seq<IdEvent>, base: seq<string>) {
    forall i | 0 <= i < |events| && events[i].Remove? :: events[i].id !in base
  }

  /** No event adds one. */
  predicate AddsNone(events: seq<IdEvent>, base: seq<string>) {
    forall i | 0 <= i < |events| && events[i].Add? :: events[i].id !in base
  }

  lemma {:induction false} AddOneBeside(front: bool, base: seq<string>, x: seq<string>, id: string)
    ensures IdStep(front, Beside(front, NotIn(x, base), base), Add(id))
              == Beside(front, NotIn(IdStep(front, x, Add(id)), base), base)
  {
    var extra, own := NotIn(x, base), NotIn([id], base);
    NotInMembers(x, base);
    assert [id][1..] == [];
    assert own == (if id in base then [] else [id]) + NotIn([], base);
    if front {
      NotInAppend([id], x, base);
      Assoc(own, extra, base);
    } else {
      NotInAppend(x, [id], base);
      Assoc(base, extra, own);
    }
    if id in base {
      assert own == [] && extra + [] == extra && [] + extra == extra;
    }
  }

  lemma {:induction false} StepBeside(front: bool, base: seq<string>, x: seq<string>, event: IdEvent)
    requires event.Remove? ==> event.id !in base
    ensures IdStep(front, Beside(front, NotIn(x, base), base), event)
              == Beside(front, NotIn(IdStep(front, x, event), base), base)
  {
    match event
    case NoChange =>
    case Add(id) => AddOneBeside(front, base, x, id);
    case Remove(id) =>
      NotInWithout(x, base, id);
      WithoutMembers(base, id);
      if front { WithoutAppend(NotIn(x, base), base, id); } else { WithoutAppend(base, NotIn(x, base), id); }
  }

  /** Whatever list the events are applied to, while they spare it, it stands as it was beside what they add. */
  lemma {:induction false} RunBeside(front: bool, base: seq<string>, x: seq<string>, events: seq<IdEvent>)
    requires Spares(events, base)
    ensures IdRun(front, Beside(front, NotIn(x, base), base), events)
              == Beside(front, NotIn(IdRun(front, x, events), base), base)
    decreases events
  {
    if events != [] {
      StepBeside(front, base, x, events[0]);
      RunBeside(front, base, IdStep(front, x, events[0]), events[1..]);
    }
  }

  /** What is left of a list after the removals among the events. */
  function Left(ids: seq<string>, events: seq<IdEvent>): seq<string>
    decreases events
  {
    if events == [] then ids else Left(if events[0].Remove? then Without(ids, events[0].id) else ids, events[1..])
  }

  lemma {:induction false} LeftMembers(ids: seq<string>, events: seq<IdEvent>)
    ensures forall x :: x in Left(ids, events) <==> x in ids && Remove(x) !in events
    decreases events
  {
    if events != [] {
      var next := if events[0].Remove? then Without(ids, events[0].id) else ids;
      if events[0].Remove? {
        WithoutMembers(ids, events[0].id);
      }
      LeftMembers(next, events[1..]);
      assert events == [events[0]] + events[1..];
    }
  }

  lemma {:induction false} StepOnTop(front: bool, base: seq<string>, x: seq<string>, event: IdEvent)
    requires event.Add? ==> event.id !in base
    ensures IdStep(front, Beside(front, x, base), event)
         == Beside(front, IdStep(front, x, event), if event.Remove? then Without(base, event.id) else base)
  {
    match event
    case NoChange =>
    case Add(id) =>
      assert front ==> [id] + (x + base) == ([id] + x) + base;
      assert !front ==> (base + x) + [id] == base + (x + [id]);
    case Remove(id) => if front { WithoutAppend(x, base, id); } else { WithoutAppend(base, x, id); }
  }

  /** Events that add nothing of `base` leave of it what they do not remove, beside what they make of the rest. */
  lemma {:induction false} RunOnTop(front: bool, base: seq<string>, x: seq<string>, events: seq<IdEvent>)
    requires AddsNone(events, base)
    ensures IdRun(front, Beside(front, x, base), events) == Beside(front, IdRun(front, x, events), Left(base, events))
    decreases events
  {
    if events != [] {
      var next := if events[0].Remove? then Without(base, events[0].id) else base;
      StepOnTop(front, base, x, events[0]);
      WithoutMembers(base, if events[0].Remove? then events[0].id else "");
      forall i | 0 <= i < |events[1..]| && events[1..][i].Add? ensures events[1..][i].id !in next {
        assert events[i + 1] == events[1..][i];
      }
      RunOnTop(front, next, IdStep(front, x, events[0]), events[1..]);
    }
  }

  /**
   * A list, then events that spare it, then events that add nothing known: the first events leave no trace if and only
   * if whatever they add that is not in the list is removed by one of the second.
   */
  lemma {:induction false} NoTraceIff(front: bool, base: seq<string>, first: seq<IdEvent>, second: seq<IdEvent>)
    requires Spares(first, base) && AddsNone(second, base) && AddsNone(second, IdRun(front, [], first))
    ensures IdRun(front, IdRun(front, base, first), second) == IdRun(front, base, second)
       <==> forall x | x in IdRun(front, [], first) :: x in base || Remove(x) in second
  {
    var extra := NotIn(IdRun(front, [], first), base);
    assert Beside(front, [], base) == base;
    RunBeside(front, base, [], first);
    NotInMembers(IdRun(front, [], first), base);
    assert AddsNone(second, extra);
    RunOnTop(front, base, extra, second);
    assert Beside(front, [], extra) == extra;
    RunOnTop(front, extra, [], second);
    RunOnTop(front, base, [], second);
    LeftMembers(extra, second);
    BesideNothing(front, IdRun(front, [], second), Left(extra, second), Left(base, second));
  }

  lemma {:induction false} BesideNothing(front: bool, later: seq<string>, extra: seq<string>, base: seq<string>)
    ensures Beside(front, Beside(front, later, extra), base) == Beside(front, later, base) <==> forall x :: x !in extra
  {
    if extra == [] {
      assert Beside(front, later, []) == later;
    } else {
      assert extra[0] in extra;
      assert |Beside(front, Beside(front, later, extra), base)| == |later| + |extra| + |base|;
    }
  }
}
