/**
 * The order of a list that ids are added to and removed from (`IdRun`): a list someone was given, with events applied
 * to it, against the list that all of the events make of nothing.
 */
module ListOrder {
  import opened Sequences
  import opened Sorting
  import opened ReplayLists

  predicate Precedes(ids: seq<string>, x: string, y: string) {
    ids != [] && ((ids[0] == x && y in ids[1..]) || Precedes(ids[1..], x, y))
  }

  lemma {:induction false} PrecedesMembers(ids: seq<string>, x: string, y: string)
    requires Precedes(ids, x, y)
    ensures x in ids && y in ids
  {
    if !(ids[0] == x && y in ids[1..]) {
      PrecedesMembers(ids[1..], x, y);
    }
  }

  lemma {:induction false} PrecedesAppended(ids: seq<string>, z: string, x: string, y: string)
    ensures Precedes(ids + [z], x, y) <==> Precedes(ids, x, y) || (x in ids && y == z)
  {
    if ids == [] {
      assert ids + [z] == [z] && [z][1..] == [];
    } else {
      TailOfAppend(ids, [z]);
      PrecedesAppended(ids[1..], z, x, y);
      assert ids == [ids[0]] + ids[1..];
    }
  }

  lemma {:induction false} PrecedesPrepended(ids: seq<string>, z: string, x: string, y: string)
    ensures Precedes([z] + ids, x, y) <==> Precedes(ids, x, y) || (x == z && y in ids)
  {
    assert ([z] + ids)[1..] == ids;
  }

  lemma {:induction false} PrecedesWithout(ids: seq<string>, z: string, x: string, y: string)
    requires x != z && y != z
    ensures Precedes(Without(ids, z), x, y) <==> Precedes(ids, x, y)
  {
    if ids != [] {
      PrecedesWithout(ids[1..], z, x, y);
      WithoutMembers(ids[1..], z);
      if ids[0] == z {
        assert Without(ids, z) == Without(ids[1..], z);
      } else {
        assert ([ids[0]] + Without(ids[1..], z))[1..] == Without(ids[1..], z);
      }
    }
  }

  lemma {:induction false} PrecedesAt(ids: seq<string>, i: nat, j: nat)
    requires Distinct(ids) && i < |ids| && j < |ids| && i != j
    ensures Precedes(ids, ids[i], ids[j]) <==> i < j
  {
    var rest := ids[1..];
    FirstOnce(ids);
    if i > 0 && j > 0 {
      assert rest[i - 1] == ids[i] && rest[j - 1] == ids[j];
      assert ids[0] != ids[i];
      PrecedesAt(rest, i - 1, j - 1);
    } else if i == 0 {
      assert rest[j - 1] == ids[j];
    } else {
      assert ids[0] != ids[i];
      if Precedes(rest, ids[i], ids[0]) {
        PrecedesMembers(rest, ids[i], ids[0]);
      }
    }
  }

  lemma {:induction false} OneOrTheOther(ids: seq<string>, x: string, y: string)
    requires Distinct(ids) && x in ids && y in ids && x != y
    ensures Precedes(ids, x, y) <==> !Precedes(ids, y, x)
  {
    assert ids == [ids[0]] + ids[1..];
    FirstOnce(ids);
    if ids[0] == x || ids[0] == y {
      if Precedes(ids[1..], x, y) {
        PrecedesMembers(ids[1..], x, y);
      }
      if Precedes(ids[1..], y, x) {
        PrecedesMembers(ids[1..], y, x);
      }
    } else {
      OneOrTheOther(ids[1..], x, y);
    }
  }

  lemma {:induction false} FirstOnce(ids: seq<string>)
    requires ids != [] && Distinct(ids)
    ensures ids[0] !in ids[1..] && Distinct(ids[1..])
  {
  }

  /** Whatever precedes in `a` precedes in `b`. */
  ghost predicate SameOrder(a: seq<string>, b: seq<string>) {
    forall x, y | Precedes(a, x, y) :: Precedes(b, x, y)
  }

  /** Two lists of the same ids in the same order are the same list. */
  lemma {:induction false} SameList(a: seq<string>, b: seq<string>)
    requires Distinct(a) && Distinct(b) && (forall x :: x in a <==> x in b) && SameOrder(a, b)
    ensures a == b
    decreases |a|
  {
    if a == [] {
      if b != [] {
        SomeMember(b);
        assert false;
      }
    } else {
      assert a[0] in b;
      if b == [] {
        assert false;
      }
      assert b[0] in a;
      FirstOnce(a);
      FirstOnce(b);
      if a[0] != b[0] {
        FirstIsFirst(a, b);
      }
      assert a == [a[0]] + a[1..] && b == [b[0]] + b[1..];
      forall x, y | Precedes(a[1..], x, y) ensures Precedes(b[1..], x, y) {
        assert Precedes(a, x, y);
        PrecedesMembers(a[1..], x, y);
      }
      forall x ensures x in a[1..] <==> x in b[1..] {
        assert x in a <==> x in b;
      }
      SameList(a[1..], b[1..]);
    }
  }

  lemma {:induction false} FirstIsFirst(a: seq<string>, b: seq<string>)
    requires a != [] && b != [] && Distinct(b) && (forall x :: x in a <==> x in b) && SameOrder(a, b)
    ensures a[0] == b[0]
  {
    FirstOnce(b);
    assert b[0] in b;
    assert a == [a[0]] + a[1..];
    if b[0] in a[1..] {
      assert Precedes(a, a[0], b[0]);
      if Precedes(b[1..], a[0], b[0]) {
        PrecedesMembers(b[1..], a[0], b[0]);
      }
    }
  }

  // ---- what events make of the order --------------------------------------------------------

  /** Of the two, `x` is added first. */
  predicate AddedFirst(events: seq<IdEvent>, x: string, y: string) {
    events != [] && (events[0] == Add(x) || (events[0] != Add(y) && AddedFirst(events[1..], x, y)))
  }

  /**
   * Of two in the list in the end, which comes first: as they stood; else the one that was there, or was added first.
   */
  predicate Foremost(front: bool, ids: seq<string>, events: seq<IdEvent>, x: string, y: string) {
    if x in ids && y in ids then Precedes(ids, x, y)
    else if x in ids then !front
    else if y in ids then front
    else if front then AddedFirst(events, y, x) else AddedFirst(events, x, y)
  }

  lemma {:induction false} PairOrder(front: bool, ids: seq<string>, events: seq<IdEvent>, x: string, y: string)
    requires NoReuse(events) && x != y && x in IdRun(front, ids, events) && y in IdRun(front, ids, events)
    ensures Precedes(IdRun(front, ids, events), x, y) <==> Foremost(front, ids, events, x, y)
    decreases events
  {
    if events != [] {
      var next := IdStep(front, ids, events[0]);
      AddedLives(front, ids, events, x);
      AddedLives(front, ids, events, y);
      assert events == [events[0]] + events[1..];
      PairOrder(front, next, events[1..], x, y);
      match events[0]
      case NoChange =>
      case Add(z) =>
        if z !in ids {
          PairAdded(front, ids, z, events[1..], x, y);
        }
      case Remove(z) =>
        WithoutMembers(ids, z);
        PrecedesWithout(ids, z, x, y);
    }
  }

  lemma {:induction false} PairAdded(front: bool, ids: seq<string>, z: string, rest: seq<IdEvent>, x: string, y: string)
    requires x != y && z !in ids
    ensures Foremost(front, if front then [z] + ids else ids + [z], rest, x, y)
       <==> Foremost(front, ids, [Add(z)] + rest, x, y)
  {
    PrecedesAppended(ids, z, x, y);
    PrecedesPrepended(ids, z, x, y);
    assert ([Add(z)] + rest)[1..] == rest;
    if Precedes(ids, x, y) {
      PrecedesMembers(ids, x, y);
    }
  }

  /** Each id is added once. */
  ghost predicate AddedOnce(events: seq<IdEvent>) {
    forall i, j | 0 <= i < j < |events| && events[i].Add? && events[j].Add? :: events[i].id != events[j].id
  }

  lemma {:induction false} AddedFirstAt(events: seq<IdEvent>, x: string, y: string, i: nat, j: nat)
    requires AddedOnce(events) && i < |events| && j < |events| && i != j && events[i] == Add(x) && events[j] == Add(y)
    ensures AddedFirst(events, x, y) <==> i < j
    decreases events
  {
    if i > 0 && j > 0 {
      var rest := events[1..];
      forall p, q | 0 <= p < q < |rest| && rest[p].Add? && rest[q].Add? ensures rest[p].id != rest[q].id {
        assert rest[p] == events[p + 1] && rest[q] == events[q + 1];
      }
      assert rest[i - 1] == events[i] && rest[j - 1] == events[j];
      AddedFirstAt(rest, x, y, i - 1, j - 1);
    }
  }

  /** `part` holds the events of `whole` at the indices `idx`, in order. */
  ghost predicate PartOf(part: seq<IdEvent>, whole: seq<IdEvent>, idx: seq<nat>) {
    && |idx| == |part|
    && (forall i | 0 <= i < |part| :: idx[i] < |whole| && part[i] == whole[idx[i]])
    && (forall i, j | 0 <= i < j < |idx| :: idx[i] < idx[j])
  }

  lemma {:induction false} PartFacts(part: seq<IdEvent>, whole: seq<IdEvent>, idx: seq<nat>)
    requires NoReuse(whole) && AddedOnce(whole) && PartOf(part, whole, idx)
    ensures NoReuse(part) && AddedOnce(part)
  {
    forall i, j | 0 <= i < j < |part| && part[i].Remove? && part[j].Add? ensures part[i].id != part[j].id {
      assert part[i] == whole[idx[i]] && part[j] == whole[idx[j]];
    }
    forall i, j | 0 <= i < j < |part| && part[i].Add? && part[j].Add? ensures part[i].id != part[j].id {
      assert part[i] == whole[idx[i]] && part[j] == whole[idx[j]];
    }
  }

  lemma {:induction false} WhereAdded(events: seq<IdEvent>, x: string) returns (i: nat)
    requires Add(x) in events
    ensures i < |events| && events[i] == Add(x)
  {
    i :| i < |events| && events[i] == Add(x);
  }

  /** A part adds two ids in the order in which the whole does. */
  lemma {:induction false} PartAddsInOrder(part: seq<IdEvent>, whole: seq<IdEvent>, idx: seq<nat>, x: string, y: string)
    requires NoReuse(whole) && AddedOnce(whole) && PartOf(part, whole, idx) && x != y && Add(x) in part
    requires Add(y) in part
    ensures AddedFirst(part, x, y) <==> AddedFirst(whole, x, y)
  {
    PartFacts(part, whole, idx);
    var i := WhereAdded(part, x);
    var j := WhereAdded(part, y);
    assert part[i] == whole[idx[i]] && part[j] == whole[idx[j]];
    AddedFirstAt(part, x, y, i, j);
    AddedFirstAt(whole, x, y, idx[i], idx[j]);
  }

  // ---- the order of a list that was given, and added to --------------------------------------

  /**
   * Of the ids shown, whatever was announced before one that was given was given too, and stands in the list given as
   * it was announced.
   */
  ghost predicate GivenInOrder(front: bool, given: seq<string>, shown: seq<string>, whole: seq<IdEvent>) {
    forall i, j | 0 <= i < j < |whole| && whole[i].Add? && whole[j].Add? && whole[i].id in shown && whole[j].id in shown
                  && whole[j].id in given ::
      whole[i].id in given
      && (if front then Precedes(given, whole[j].id, whole[i].id) else Precedes(given, whole[i].id, whole[j].id))
  }

  /** All that is shown was announced, and is there in the end. */
  ghost predicate Fits(front: bool, given: seq<string>, part: seq<IdEvent>, whole: seq<IdEvent>, idx: seq<nat>) {
    && NoReuse(whole) && AddedOnce(whole) && PartOf(part, whole, idx)
    && Distinct(given) && Distinct(IdRun(front, given, part)) && Distinct(IdRun(front, [], whole))
    && (forall x | x in IdRun(front, given, part) :: x in IdRun(front, [], whole))
  }

  /** How two of the ids shown stand, in what was announced and in what is shown. */
  lemma {:induction false} PairShown(front: bool, given: seq<string>, part: seq<IdEvent>, whole: seq<IdEvent>,
                                     idx: seq<nat>,
                                     x: string, y: string)
    requires Fits(front, given, part, whole, idx)
    requires x != y && x in IdRun(front, given, part) && y in IdRun(front, given, part)
    ensures Add(x) in whole && Add(y) in whole
    ensures Precedes(IdRun(front, [], whole), x, y)
       <==> if front then AddedFirst(whole, y, x) else AddedFirst(whole, x, y)
    ensures Precedes(IdRun(front, given, part), x, y)
       <==> if x in given && y in given then Precedes(given, x, y)
            else if x in given then !front
            else if y in given then front
            else if front then AddedFirst(whole, y, x) else AddedFirst(whole, x, y)
  {
    PartFacts(part, whole, idx);
    AddedLives(front, [], whole, x);
    AddedLives(front, [], whole, y);
    AddedLives(front, given, part, x);
    AddedLives(front, given, part, y);
    PairOrder(front, [], whole, x, y);
    PairOrder(front, given, part, x, y);
    if x !in given && y !in given {
      PartAddsInOrder(part, whole, idx, x, y);
      PartAddsInOrder(part, whole, idx, y, x);
    }
  }

  /**
   * What is shown stands in the order in which it was announced if and only if what was given was given in that order,
   * and ahead of all else.
   */
  lemma {:induction false} OrderIff(front: bool, given: seq<string>, part: seq<IdEvent>, whole: seq<IdEvent>,
                                    idx: seq<nat>)
    requires Fits(front, given, part, whole, idx)
    ensures SameOrder(IdRun(front, given, part), IdRun(front, [], whole))
       <==> GivenInOrder(front, given, IdRun(front, given, part), whole)
  {
    var shown, all := IdRun(front, given, part), IdRun(front, [], whole);
    if SameOrder(shown, all) {
      forall i, j | 0 <= i < j < |whole| && whole[i].Add? && whole[j].Add? && whole[i].id in shown
               && whole[j].id in shown
                    && whole[j].id in given
        ensures whole[i].id in given
        ensures if front then Precedes(given, whole[j].id, whole[i].id) else Precedes(given, whole[i].id, whole[j].id)
      {
        PairInOrder(front, given, part, whole, idx, i, j);
      }
    }
    if GivenInOrder(front, given, shown, whole) {
      forall x, y | Precedes(shown, x, y) ensures Precedes(all, x, y) {
        PrecedesMembers(shown, x, y);
        if x == y {
          NotBeforeItself(shown, x);
        }
        PairStands(front, given, part, whole, idx, x, y);
      }
    }
  }

  lemma {:induction false} NotBeforeItself(ids: seq<string>, x: string)
    requires Distinct(ids)
    ensures !Precedes(ids, x, x)
  {
    if ids != [] {
      FirstOnce(ids);
      NotBeforeItself(ids[1..], x);
    }
  }

  lemma {:induction false} PairInOrder(front: bool, given: seq<string>, part: seq<IdEvent>, whole: seq<IdEvent>,
                                       idx: seq<nat>,
                                       i: nat, j: nat)
    requires Fits(front, given, part, whole, idx)
    requires SameOrder(IdRun(front, given, part), IdRun(front, [], whole))
    requires i < j < |whole| && whole[i].Add? && whole[j].Add? && whole[j].id in given
    requires whole[i].id in IdRun(front, given, part) && whole[j].id in IdRun(front, given, part)
    ensures whole[i].id in given
    ensures if front then Precedes(given, whole[j].id, whole[i].id) else Precedes(given, whole[i].id, whole[j].id)
  {
    var x, y := whole[i].id, whole[j].id;
    PairShown(front, given, part, whole, idx, x, y);
    PairShown(front, given, part, whole, idx, y, x);
    AddedFirstAt(whole, x, y, i, j);
    AddedFirstAt(whole, y, x, j, i);
    if x in given {
      OneOrTheOther(given, x, y);
    }
  }

  lemma {:induction false} PairStands(front: bool, given: seq<string>, part: seq<IdEvent>, whole: seq<IdEvent>,
                                      idx: seq<nat>,
                                      x: string, y: string)
    requires Fits(front, given, part, whole, idx) && GivenInOrder(front, given, IdRun(front, given, part), whole)
    requires x != y && x in IdRun(front, given, part) && y in IdRun(front, given, part)
    requires Precedes(IdRun(front, given, part), x, y)
    ensures Precedes(IdRun(front, [], whole), x, y)
  {
    PairShown(front, given, part, whole, idx, x, y);
    var i := WhereAdded(whole, x);
    var j := WhereAdded(whole, y);
    AddedFirstAt(whole, x, y, i, j);
    AddedFirstAt(whole, y, x, j, i);
    if x in given && y in given {
      OneOrTheOther(given, x, y);
    }
  }
}
