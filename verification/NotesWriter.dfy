/**
 * Uploads writing into a room's notes (gateway/src/notes/writer.ts), between any edits people make. The document is
 * the notes, top to bottom, and the set of uploads ever given a section. Each call's change to the document is one
 * step, as is each edit of a person.
 */
module NotesWriter {
  import opened NotesSections
  import opened Options
  import opened Sequences
  import opened Sorting

  const FAILED_PREFIX := "This upload could not be processed: "

  /** What a job that failed leaves. */
  function FailureParagraph(reason: string): Block { Paragraph(FAILED_PREFIX + reason + ".", true) }

  function JoinStripped(parts: seq<Inline>): string {
    if parts == [] then "" else (if parts[0].Text? then Strip(parts[0].raw) else "") + JoinStripped(parts[1..])
  }

  /** One paragraph that starts as the writer's failure does; what follows in it is not looked at. */
  predicate OnlyTheFailure(blocks: seq<Block>) {
    |blocks| == 1 && blocks[0].node == "paragraph" && FAILED_PREFIX <= JoinStripped(blocks[0].parts)
  }

  datatype Item = Item(id: Id, title: string)
  type Outcome = s: Status | s != Processing witness Done

  datatype State = State(notes: seq<Top>, written: set<Id>)

  datatype Step =
    | Uploaded(item: Item)
    | Retrying(item: Item)
    | Renamed(item: Item)
    | Removed(id: Id)
    | Finished(item: Item, results: seq<Block>, outcome: Outcome)
    | Person(notes: seq<Top>)

  /** The ids of the sections, top to bottom. */
  function SectionIds(notes: seq<Top>): seq<Id> {
    if notes == [] then []
    else (if notes[0].Section? then [notes[0].id] else []) + SectionIds(notes[1..])
  }

  /** A person may write, move and delete anything, but makes no section and repeats none. */
  ghost predicate MakesNoSections(before: seq<Top>, after: seq<Top>) {
    && Distinct(SectionIds(after))
    && forall id | id in SectionIds(after) :: id in SectionIds(before)
  }

  /** A job's results are the writer's own words. */
  predicate NobodysWords(blocks: seq<Block>) { forall i | 0 <= i < |blocks| :: !blocks[i].touched }

  ghost predicate Enabled(s: State, step: Step) {
    match step
    case Person(notes) => MakesNoSections(s.notes, notes)
    case Finished(_, results, _) => NobodysWords(results)
    case _ => true
  }

  function Next(s: State, step: Step): State {
    match step
    case Uploaded(item) =>
      if Find(s.notes, item.id).Some? || item.id in s.written then s
      else State(s.notes + [Create(item.id, item.title, Processing, [])], s.written + {item.id})
    case Retrying(item) =>
      (match Find(s.notes, item.id)
       case None => s
       case Some(i) => s.(notes := s.notes[i := Waiting(s.notes[i])]))
    case Renamed(item) =>
      (match Find(s.notes, item.id)
       case None => s
       case Some(i) => s.(notes := s.notes[i := s.notes[i].(title := item.title)]))
    case Removed(id) =>
      (match Find(s.notes, id)
       case None => s.(written := s.written + {id})
       case Some(i) => State(s.notes[..i] + s.notes[i + 1..], s.written + {id}))
    case Finished(item, results, outcome) =>
      (match Find(s.notes, item.id)
       case Some(i) =>
         if s.notes[i].status == outcome then s
         else s.(notes := s.notes[i := Fill(s.notes[i], results, outcome).0])
       case None =>
         if item.id in s.written then s
         else State(s.notes + [Create(item.id, item.title, outcome, results)], s.written + {item.id}))
    case Person(notes) => s.(notes := notes)
  }

  /** A section whose upload is tried again. */
  function Waiting(section: Top): Top
    requires section.Section?
  {
    section.(status := Processing,
             blocks := if OnlyTheFailure(section.blocks) then [Paragraph(SECTION_PLACEHOLDER, true)]
                 else section.blocks)
  }

  ghost predicate IsRun(s: State, steps: seq<Step>)
    decreases steps
  {
    steps == [] || (Enabled(s, steps[0]) && IsRun(Next(s, steps[0]), steps[1..]))
  }

  function After(s: State, steps: seq<Step>): State
    decreases steps
  {
    if steps == [] then s else After(Next(s, steps[0]), steps[1..])
  }

  const EMPTY := State([], {})

  // ---- one section per upload, and deletions stick -----------------------------------------------

  ghost predicate Inv(s: State) {
    && Distinct(SectionIds(s.notes))
    && forall id | id in SectionIds(s.notes) :: id in s.written
  }

  lemma {:induction false} IdsAppend(a: seq<Top>, b: seq<Top>)
    ensures SectionIds(a + b) == SectionIds(a) + SectionIds(b)
    decreases a
  {
    if a == [] {
      assert a + b == b;
    } else {
      IdsAppend(a[1..], b);
      assert (a + b)[1..] == a[1..] + b;
      Assoc(if a[0].Section? then [a[0].id] else [], SectionIds(a[1..]), SectionIds(b));
    }
  }

  lemma {:induction false} FoundIffListed(notes: seq<Top>, id: Id)
    ensures Find(notes, id).Some? <==> id in SectionIds(notes)
    decreases notes
  {
    if notes != [] {
      FoundIffListed(notes[1..], id);
    }
  }

  /** Changing a section in place. */
  lemma {:induction false} IdsUpdate(notes: seq<Top>, i: nat, section: Top)
    requires i < |notes| && notes[i].Section? && section.Section? && section.id == notes[i].id
    ensures SectionIds(notes[i := section]) == SectionIds(notes)
  {
    var before, after := notes[..i], notes[i + 1..];
    assert notes == before + ([notes[i]] + after) && notes[i := section] == before + ([section] + after);
    IdsAppend(before, [notes[i]] + after);
    IdsAppend(before, [section] + after);
    assert ([notes[i]] + after)[1..] == after && ([section] + after)[1..] == after;
  }

  lemma {:induction false} IdsOfNew(notes: seq<Top>, section: Top)
    requires section.Section?
    ensures SectionIds(notes + [section]) == SectionIds(notes) + [section.id]
  {
    IdsAppend(notes, [section]);
    assert SectionIds([section]) == [section.id];
  }

  lemma {:induction false} IdsOfRemoved(notes: seq<Top>, i: nat)
    requires i < |notes| && notes[i].Section? && Distinct(SectionIds(notes))
    ensures Distinct(SectionIds(notes[..i] + notes[i + 1..]))
    ensures forall id :: id in SectionIds(notes[..i] + notes[i + 1..]) <==> id in SectionIds(notes) && id != notes[i].id
  {
    var before, after := notes[..i], notes[i + 1..];
    assert notes == before + ([notes[i]] + after);
    IdsAppend(before, [notes[i]] + after);
    IdsAppend(before, after);
    assert ([notes[i]] + after)[1..] == after;
    DistinctWithout(SectionIds(before), notes[i].id, SectionIds(after));
  }

  lemma {:induction false} DistinctWithout<T>(a: seq<T>, x: T, b: seq<T>)
    requires Distinct(a + ([x] + b))
    ensures Distinct(a + b)
    ensures forall y :: y in a + b <==> y in a + ([x] + b) && y != x
  {
    var all, left := a + ([x] + b), a + b;
    forall i, j | 0 <= i < j < |left| ensures left[i] != left[j] {
      assert left[i] == all[if i < |a| then i else i + 1];
      assert left[j] == all[if j < |a| then j else j + 1];
    }
    forall y ensures y in left <==> y in all && y != x {
      if y in left {
        var i :| 0 <= i < |left| && left[i] == y;
        assert all[if i < |a| then i else i + 1] == y && all[|a|] == x;
      }
      if y in all && y != x {
        var i :| 0 <= i < |all| && all[i] == y;
        assert left[if i < |a| then i else i - 1] == y;
      }
    }
  }

  /** No upload's section is new but one never written. */
  ghost predicate Follows(s: State, t: State) {
    Inv(t) && s.written <= t.written
    && forall id | id in SectionIds(t.notes) :: id in SectionIds(s.notes) || id !in s.written
  }

  lemma {:induction false} ChangedFollows(s: State, i: nat, section: Top)
    requires Inv(s) && i < |s.notes| && s.notes[i].Section? && section.Section? && section.id == s.notes[i].id
    ensures Follows(s, s.(notes := s.notes[i := section]))
  {
    IdsUpdate(s.notes, i, section);
  }

  lemma {:induction false} NewFollows(s: State, section: Top)
    requires Inv(s) && section.Section? && section.id !in s.written
    ensures Follows(s, State(s.notes + [section], s.written + {section.id}))
  {
    IdsOfNew(s.notes, section);
  }

  lemma {:induction false} RemovedFollows(s: State, i: nat)
    requires Inv(s) && i < |s.notes| && s.notes[i].Section?
    ensures Follows(s, State(s.notes[..i] + s.notes[i + 1..], s.written + {s.notes[i].id}))
  {
    IdsOfRemoved(s.notes, i);
  }

  /** What each step does to the ids: nothing, one new one at the end, or some gone. */
  lemma {:induction false} InvStep(s: State, step: Step)
    requires Inv(s) && Enabled(s, step)
    ensures Follows(s, Next(s, step))
  {
    match step
    case Person(_) =>
    case Uploaded(item) =>
      if Find(s.notes, item.id).None? && item.id !in s.written {
        NewFollows(s, Create(item.id, item.title, Processing, []));
      }
    case Finished(item, results, outcome) =>
      match Find(s.notes, item.id) {
        case None => if item.id !in s.written { NewFollows(s, Create(item.id, item.title, outcome, results)); }
        case Some(i) => ChangedFollows(s, i, Fill(s.notes[i], results, outcome).0);
      }
    case Removed(id) =>
      match Find(s.notes, id) {
        case None =>
        case Some(i) => RemovedFollows(s, i);
      }
    case Retrying(item) =>
      match Find(s.notes, item.id) {
        case None =>
        case Some(i) => ChangedFollows(s, i, Waiting(s.notes[i]));
      }
    case Renamed(item) =>
      match Find(s.notes, item.id) {
        case None =>
        case Some(i) => ChangedFollows(s, i, s.notes[i].(title := item.title));
      }
  }

  lemma {:induction false} InvAlways(s: State, steps: seq<Step>)
    requires Inv(s) && IsRun(s, steps)
    ensures Inv(After(s, steps)) && s.written <= After(s, steps).written
    decreases steps
  {
    if steps != [] {
      InvStep(s, steps[0]);
      InvAlways(Next(s, steps[0]), steps[1..]);
    }
  }

  /** One section per upload: whatever the calls, in whatever order, no id has two, and each is known as written. */
  lemma {:induction false} OneSectionPerUpload(steps: seq<Step>)
    requires IsRun(EMPTY, steps)
    ensures var s := After(EMPTY, steps);
            && Distinct(SectionIds(s.notes))
            && (forall id | id in SectionIds(s.notes) :: id in s.written)
  {
    InvAlways(EMPTY, steps);
  }

  /** Deletions stick: an upload that had a section, and has none, never has one again. */
  lemma {:induction false} GoneStaysGone(s: State, steps: seq<Step>, id: Id)
    requires Inv(s) && IsRun(s, steps) && id in s.written && id !in SectionIds(s.notes)
    ensures id !in SectionIds(After(s, steps).notes)
    decreases steps
  {
    if steps != [] {
      InvStep(s, steps[0]);
      GoneStaysGone(Next(s, steps[0]), steps[1..], id);
    }
  }

  /** And an upload whose section is still there is found there, with its latest status, by whatever comes next. */
  lemma {:induction false} StaysUntilDeleted(s: State, step: Step, id: Id)
    requires Inv(s) && id in SectionIds(s.notes) && !step.Person? && step != Removed(id)
    ensures id in SectionIds(Next(s, step).notes)
  {
    match step
    case Uploaded(item) => IdsOfNew(s.notes, Create(item.id, item.title, Processing, []));
    case Finished(item, results, outcome) =>
      match Find(s.notes, item.id) {
        case None => IdsOfNew(s.notes, Create(item.id, item.title, outcome, results));
        case Some(i) => IdsUpdate(s.notes, i, Fill(s.notes[i], results, outcome).0);
      }
    case Removed(other) =>
      match Find(s.notes, other) {
        case None =>
        case Some(i) => IdsOfRemoved(s.notes, i);
      }
    case Retrying(item) =>
      match Find(s.notes, item.id) {
        case None =>
        case Some(i) => IdsUpdate(s.notes, i, Waiting(s.notes[i]));
      }
    case Renamed(item) =>
      match Find(s.notes, item.id) {
        case None =>
        case Some(i) => IdsUpdate(s.notes, i, s.notes[i].(title := item.title));
      }
  }

  // ---- people's words stay -----------------------------------------------------------------------

  /** The blocks people have written in, top to bottom. */
  function TouchedIn(blocks: seq<Block>): seq<Block> {
    if blocks == [] then [] else (if blocks[0].touched then [blocks[0]] else []) + TouchedIn(blocks[1..])
  }

  function BlocksOf(top: Top): seq<Block> { if top.Section? then top.blocks else [top.block] }

  function Touched(notes: seq<Top>): seq<Block> {
    if notes == [] then [] else TouchedIn(BlocksOf(notes[0])) + Touched(notes[1..])
  }

  lemma {:induction false} TouchedInAppend(a: seq<Block>, b: seq<Block>)
    ensures TouchedIn(a + b) == TouchedIn(a) + TouchedIn(b)
    decreases a
  {
    if a == [] {
      assert a + b == b;
    } else {
      TouchedInAppend(a[1..], b);
      assert (a + b)[1..] == a[1..] + b;
      Assoc(if a[0].touched then [a[0]] else [], TouchedIn(a[1..]), TouchedIn(b));
    }
  }

  lemma {:induction false} NobodysTouched(blocks: seq<Block>)
    requires NobodysWords(blocks)
    ensures TouchedIn(blocks) == []
    decreases blocks
  {
    if blocks != [] {
      NobodysTouched(blocks[1..]);
    }
  }

  lemma {:induction false} TouchedAppend(a: seq<Top>, b: seq<Top>)
    ensures Touched(a + b) == Touched(a) + Touched(b)
    decreases a
  {
    if a == [] {
      assert a + b == b;
    } else {
      TouchedAppend(a[1..], b);
      assert (a + b)[1..] == a[1..] + b;
      Assoc(TouchedIn(BlocksOf(a[0])), Touched(a[1..]), Touched(b));
    }
  }

  /** People's words before, in, and after one item. */
  lemma {:induction false} TouchedAround(notes: seq<Top>, i: nat, top: Top)
    requires i < |notes|
    ensures Touched(notes[i := top]) == Touched(notes[..i]) + (TouchedIn(BlocksOf(top)) + Touched(notes[i + 1..]))
    ensures Touched(notes) == Touched(notes[..i]) + (TouchedIn(BlocksOf(notes[i])) + Touched(notes[i + 1..]))
  {
    var before, after := notes[..i], notes[i + 1..];
    assert notes == before + ([notes[i]] + after) && notes[i := top] == before + ([top] + after);
    TouchedAppend(before, [notes[i]] + after);
    TouchedAppend(before, [top] + after);
    assert ([notes[i]] + after)[1..] == after && ([top] + after)[1..] == after;
  }

  /** The step lands on a section whose only block someone has written in, and takes that block for its own. */
  predicate Swallows(s: State, step: Step) {
    match step
    case Finished(item, results, outcome) =>
      (match Find(s.notes, item.id)
       case None => false
       case Some(i) =>
         && s.notes[i].status != outcome && results != []
         && IsPlaceholder(s.notes[i].blocks) && s.notes[i].blocks[0].touched)
    case Retrying(item) =>
      (match Find(s.notes, item.id)
       case None => false
       case Some(i) => OnlyTheFailure(s.notes[i].blocks) && s.notes[i].blocks[0].touched)
    case Removed(id) =>
      (match Find(s.notes, id)
       case None => false
       case Some(i) => TouchedIn(s.notes[i].blocks) != [])
    case _ => false
  }

  /** A section in place becomes another: people's words are the same if they were the same in it, and only then. */
  lemma {:induction false} WordsInPlace(notes: seq<Top>, i: nat, top: Top)
    requires i < |notes|
    ensures TouchedIn(BlocksOf(top)) == TouchedIn(BlocksOf(notes[i])) ==> Touched(notes[i := top]) == Touched(notes)
    ensures |TouchedIn(BlocksOf(top))| != |TouchedIn(BlocksOf(notes[i]))| ==> Touched(notes[i := top]) != Touched(notes)
  {
    TouchedAround(notes, i, top);
  }

  lemma {:induction false} WordsAfterRemoval(notes: seq<Top>, i: nat)
    requires i < |notes| && notes[i].Section?
    ensures Touched(notes[..i] + notes[i + 1..]) == Touched(notes) <==> TouchedIn(notes[i].blocks) == []
  {
    TouchedAppend(notes[..i], notes[i + 1..]);
    TouchedAround(notes, i, notes[i]);
    var before, own, after := Touched(notes[..i]), TouchedIn(notes[i].blocks), Touched(notes[i + 1..]);
    assert own == [] ==> own + after == after;
    assert |before + (own + after)| == |before| + |own| + |after|;
  }

  lemma {:induction false} WordsAfterNew(notes: seq<Top>, section: Top)
    requires section.Section? && NobodysWords(section.blocks)
    ensures Touched(notes + [section]) == Touched(notes)
  {
    TouchedAppend(notes, [section]);
    NobodysTouched(section.blocks);
    assert Touched([section]) == TouchedIn(section.blocks) + [];
  }

  /**
   * People's words stay, all of them and in order, through every call of the writer, except exactly when the call
   * takes a paragraph someone has written in for the writer's own, or deletes the upload they wrote under.
   */
  lemma {:induction false} WordsStay(s: State, step: Step)
    requires Enabled(s, step) && !step.Person?
    ensures Touched(Next(s, step).notes) == Touched(s.notes) <==> !Swallows(s, step)
  {
    match step
    case Uploaded(item) => WordsAfterNew(s.notes, Create(item.id, item.title, Processing, []));
    case Finished(item, results, outcome) => WordsStayFinished(s, item, results, outcome);
    case Retrying(item) => WordsStayRetrying(s, item);
    case Renamed(item) =>
      match Find(s.notes, item.id) {
        case None =>
        case Some(i) => WordsInPlace(s.notes, i, s.notes[i].(title := item.title));
      }
    case Removed(id) =>
      match Find(s.notes, id) {
        case None =>
        case Some(i) => WordsAfterRemoval(s.notes, i);
      }
  }

  lemma {:induction false} WordsStayFinished(s: State, item: Item, results: seq<Block>, outcome: Outcome)
    requires NobodysWords(results)
    ensures var step := Finished(item, results, outcome);
            Touched(Next(s, step).notes) == Touched(s.notes) <==> !Swallows(s, step)
  {
    match Find(s.notes, item.id) {
      case None => WordsAfterNew(s.notes, Create(item.id, item.title, outcome, results));
      case Some(i) =>
        WordsInPlace(s.notes, i, Fill(s.notes[i], results, outcome).0);
        WordsInFilled(s.notes[i], results, outcome);
        FinishedInPlace(s, item, results, outcome, i);
    }
  }

  lemma {:induction false} FinishedInPlace(s: State, item: Item, results: seq<Block>, outcome: Outcome, i: nat)
    requires Find(s.notes, item.id) == Some(i)
    ensures var step, section := Finished(item, results, outcome), s.notes[i];
            && Next(s, step).notes == (if section.status == outcome then s.notes
                                       else s.notes[i := Fill(section, results, outcome).0])
            && (Swallows(s, step) <==> section.status != outcome && results != [] && IsPlaceholder(section.blocks)
                                       && section.blocks[0].touched)
  {
  }

  lemma {:induction false} WordsInFilled(section: Top, results: seq<Block>, outcome: Outcome)
    requires section.Section? && NobodysWords(results)
    ensures var filled := Fill(section, results, outcome).0;
            if results != [] && IsPlaceholder(section.blocks) && section.blocks[0].touched
            then |TouchedIn(filled.blocks)| != |TouchedIn(section.blocks)|
            else TouchedIn(filled.blocks) == TouchedIn(section.blocks)
  {
    NobodysTouched(results);
    TouchedInAppend(section.blocks, results);
    if IsPlaceholder(section.blocks) {
      OneTouched(section.blocks);
    }
  }

  lemma {:induction false} WordsStayRetrying(s: State, item: Item)
    ensures Touched(Next(s, Retrying(item)).notes) == Touched(s.notes) <==> !Swallows(s, Retrying(item))
  {
    match Find(s.notes, item.id) {
      case None =>
      case Some(i) =>
        var section := s.notes[i];
        WordsInPlace(s.notes, i, Waiting(section));
        NobodysTouched([Paragraph(SECTION_PLACEHOLDER, true)]);
        if OnlyTheFailure(section.blocks) {
          OneTouched(section.blocks);
        }
    }
  }

  lemma {:induction false} OneTouched(blocks: seq<Block>)
    requires |blocks| == 1
    ensures |TouchedIn(blocks)| == if blocks[0].touched then 1 else 0
  {
    assert TouchedIn(blocks[1..]) == [];
  }

  /** People's words outside what the step swallows. */
  function Outside(s: State, step: Step): seq<Block> {
    match (if Swallows(s, step) then Find(s.notes, AboutId(step)) else None)
    case None => Touched(s.notes)
    case Some(i) => Touched(s.notes[..i]) + Touched(s.notes[i + 1..])
  }

  function AboutId(step: Step): Id {
    match step
    case Removed(id) => id
    case Uploaded(item) => item.id
    case Retrying(item) => item.id
    case Renamed(item) => item.id
    case Finished(item, _, _) => item.id
    case Person(_) => ""
  }

  /** Every call leaves exactly the words it does not swallow, in their order. */
  lemma {:induction false} WordsAfter(s: State, step: Step)
    requires Enabled(s, step) && !step.Person?
    ensures Touched(Next(s, step).notes) == Outside(s, step)
  {
    WordsStay(s, step);
    if Swallows(s, step) {
      SwallowedAfter(s, step);
    }
  }

  lemma {:induction false} SwallowedAfter(s: State, step: Step)
    requires Enabled(s, step) && !step.Person? && Swallows(s, step)
    ensures Touched(Next(s, step).notes) == Outside(s, step)
  {
    var i := Find(s.notes, AboutId(step)).value;
    match step
    case Finished(_, results, outcome) =>
      NobodysTouched(results);
      WordsGone(s.notes, i, Fill(s.notes[i], results, outcome).0);
    case Retrying(_) =>
      NobodysTouched([Paragraph(SECTION_PLACEHOLDER, true)]);
      WordsGone(s.notes, i, Waiting(s.notes[i]));
    case Removed(_) => TouchedAppend(s.notes[..i], s.notes[i + 1..]);
  }

  lemma {:induction false} WordsGone(notes: seq<Top>, i: nat, top: Top)
    requires i < |notes| && TouchedIn(BlocksOf(top)) == []
    ensures Touched(notes[i := top]) == Touched(notes[..i]) + Touched(notes[i + 1..])
  {
    TouchedAround(notes, i, top);
    assert [] + Touched(notes[i + 1..]) == Touched(notes[i + 1..]);
  }

  /** These blocks stand there, in this order, among others. */
  predicate StandIn(words: seq<Block>, all: seq<Block>)
    decreases |all|
  {
    words == [] || (all != [] && ((words[0] == all[0] && StandIn(words[1..], all[1..])) || StandIn(words, all[1..])))
  }

  lemma {:induction false} StandAfter(words: seq<Block>, before: seq<Block>, all: seq<Block>)
    requires StandIn(words, all)
    ensures StandIn(words, before + all)
    decreases before
  {
    if before == [] {
      assert before + all == all;
    } else {
      StandAfter(words, before[1..], all);
      TailOfAppend(before, all);
    }
  }

  lemma {:induction false} StandWithMore(words: seq<Block>, before: seq<Block>, own: seq<Block>, after: seq<Block>)
    requires StandIn(words, before + after)
    ensures StandIn(words, before + (own + after))
    decreases before
  {
    if before == [] {
      assert before + after == after && before + (own + after) == own + after;
      StandAfter(words, own, after);
    } else if words != [] {
      TailOfAppend(before, after);
      TailOfAppend(before, own + after);
      if StandIn(words, before[1..] + after) {
        StandWithMore(words, before[1..], own, after);
      } else {
        StandWithMore(words[1..], before[1..], own, after);
      }
    }
  }

  /** What stands outside what a step swallows stood there before it. */
  lemma {:induction false} OutsideStood(s: State, step: Step, words: seq<Block>)
    requires StandIn(words, Outside(s, step))
    ensures StandIn(words, Touched(s.notes))
  {
    var at := if Swallows(s, step) then Find(s.notes, AboutId(step)) else None;
    if at.Some? {
      StoodAround(s.notes, at.value, words);
    }
  }

  lemma {:induction false} StoodAround(notes: seq<Top>, i: nat, words: seq<Block>)
    requires i < |notes| && StandIn(words, Touched(notes[..i]) + Touched(notes[i + 1..]))
    ensures StandIn(words, Touched(notes))
  {
    TouchedAround(notes, i, notes[i]);
    StandWithMore(words, Touched(notes[..i]), TouchedIn(BlocksOf(notes[i])), Touched(notes[i + 1..]));
    assert notes[i := notes[i]] == notes;
  }

  /** No edit of a person takes these words away, or writes them again. */
  predicate PeopleSpare(s: State, steps: seq<Step>, words: seq<Block>)
    decreases steps
  {
    steps == [] ||
      (&& (steps[0].Person? ==> (StandIn(words, Touched(steps[0].notes)) <==> StandIn(words, Touched(s.notes))))
       && PeopleSpare(Next(s, steps[0]), steps[1..], words))
  }

  /** No call swallows any of these words. */
  predicate CallsSpare(s: State, steps: seq<Step>, words: seq<Block>)
    decreases steps
  {
    steps == [] ||
      (&& (!steps[0].Person? && Swallows(s, steps[0]) ==> StandIn(words, Outside(s, steps[0])))
       && CallsSpare(Next(s, steps[0]), steps[1..], words))
  }

  /**
   * Through every run of calls and of people's edits, words that no person deletes stand in the notes to the end, in
   * their order, if and only if no call swallows any of them.
   */
  lemma {:induction false} WordsKeptIff(s: State, steps: seq<Step>, words: seq<Block>)
    requires IsRun(s, steps) && StandIn(words, Touched(s.notes)) && PeopleSpare(s, steps, words)
    ensures StandIn(words, Touched(After(s, steps).notes)) <==> CallsSpare(s, steps, words)
    decreases steps
  {
    if steps != [] {
      var t := Next(s, steps[0]);
      if !steps[0].Person? {
        WordsAfter(s, steps[0]);
        WordsStay(s, steps[0]);
      }
      if StandIn(words, Touched(t.notes)) {
        WordsKeptIff(t, steps[1..], words);
      } else {
        GoneWordsStayGone(t, steps[1..], words);
      }
    }
  }

  lemma {:induction false} GoneWordsStayGone(s: State, steps: seq<Step>, words: seq<Block>)
    requires IsRun(s, steps) && !StandIn(words, Touched(s.notes)) && PeopleSpare(s, steps, words)
    ensures !StandIn(words, Touched(After(s, steps).notes))
    decreases steps
  {
    if steps != [] {
      var t := Next(s, steps[0]);
      if !steps[0].Person? {
        WordsAfter(s, steps[0]);
        if StandIn(words, Outside(s, steps[0])) {
          OutsideStood(s, steps[0], words);
        }
      }
      GoneWordsStayGone(t, steps[1..], words);
    }
  }

  // ---- what a section shows -----------------------------------------------------------------------

  /** From upload to results: a section nobody touched shows exactly the results. */
  lemma {:induction false} UploadThenFinish(s: State, item: Item, results: seq<Block>, outcome: Outcome)
    requires Inv(s) && item.id !in s.written && results != []
    ensures var t := Next(Next(s, Uploaded(item)), Finished(item, results, outcome));
            t.notes == s.notes + [Section(item.id, item.title, outcome, results)]
  {
    FoundIffListed(s.notes, item.id);
    var waiting := Create(item.id, item.title, Processing, []);
    PlaceholderRecognised();
    FindNew(s.notes, waiting);
  }

  lemma {:induction false} FindNew(notes: seq<Top>, section: Top)
    requires section.Section? && Find(notes, section.id).None?
    ensures Find(notes + [section], section.id) == Some(|notes|)
  {
    var all := notes + [section];
    forall k | 0 <= k < |notes| ensures !IsSection(all[k], section.id) {
      assert all[k] == notes[k];
    }
    assert IsSection(all[|notes|], section.id);
  }

  /**
   * A second completion of the same outcome changes nothing, whatever its results: the first to fill a section decides.
   */
  lemma {:induction false} FinishedAgain(s: State, item: Item, results: seq<Block>, again: seq<Block>, outcome: Outcome)
    ensures var once := Next(s, Finished(item, results, outcome));
            Next(once, Finished(item, again, outcome)) == once
  {
    var once := Next(s, Finished(item, results, outcome));
    match Find(s.notes, item.id) {
      case None =>
        if item.id !in s.written {
          FindNew(s.notes, Create(item.id, item.title, outcome, results));
        }
      case Some(i) =>
        FindSame(s.notes, once.notes, i, item.id);
    }
  }

  lemma {:induction false} FindSame(before: seq<Top>, after: seq<Top>, i: nat, id: Id)
    requires Find(before, id) == Some(i) && |after| == |before| && IsSection(after[i], id)
    requires forall k | 0 <= k < i :: after[k] == before[k]
    ensures Find(after, id) == Some(i)
  {
    assert forall k | 0 <= k < i :: !IsSection(before[k], id);
  }

  /** Failed, retried, then finished: untouched, the failure gives way to the results. */
  lemma {:induction false} RetryReplacesFailure(s: State, item: Item, reason: string, results: seq<Block>, i: nat)
    requires Find(s.notes, item.id) == Some(i) && s.notes[i].status.Processing? && IsPlaceholder(s.notes[i].blocks)
    requires results != []
    ensures var failed := Next(s, Finished(item, [FailureParagraph(reason)], Failed));
            var t := Next(Next(failed, Retrying(item)), Finished(item, results, Done));
            t.notes == s.notes[i := s.notes[i].(status := Done, blocks := results)]
  {
    FailureRecognised(reason);
    FailedRetriedFinished(s, item, [FailureParagraph(reason)], results, i);
  }

  lemma {:induction false} FailedRetriedFinished(s: State, item: Item, failure: seq<Block>, results: seq<Block>, i: nat)
    requires Find(s.notes, item.id) == Some(i) && s.notes[i].status.Processing? && IsPlaceholder(s.notes[i].blocks)
    requires OnlyTheFailure(failure) && results != []
    ensures Next(Next(Next(s, Finished(item, failure, Failed)), Retrying(item)), Finished(item, results, Done)).notes
         == s.notes[i := s.notes[i].(status := Done, blocks := results)]
  {
    var section := s.notes[i];
    var failed := Next(s, Finished(item, failure, Failed));
    assert failed.notes == s.notes[i := section.(status := Failed, blocks := failure)];
    FindSame(s.notes, failed.notes, i, item.id);
    RetriedThenFinished(failed, item, results, i);
    assert s.notes[i := failed.notes[i]][i := section.(status := Done, blocks := results)]
        == s.notes[i := section.(status := Done, blocks := results)];
  }

  lemma {:induction false} RetriedThenFinished(s: State, item: Item, results: seq<Block>, i: nat)
    requires Find(s.notes, item.id) == Some(i) && OnlyTheFailure(s.notes[i].blocks) && results != []
    ensures Next(Next(s, Retrying(item)), Finished(item, results, Done)).notes
         == s.notes[i := s.notes[i].(status := Done, blocks := results)]
  {
    var waiting := Next(s, Retrying(item));
    FindSame(s.notes, waiting.notes, i, item.id);
    PlaceholderRecognised();
    assert waiting.notes[i] == Waiting(s.notes[i]);
    assert s.notes[i := waiting.notes[i]][i := s.notes[i].(status := Done, blocks := results)]
        == s.notes[i := s.notes[i].(status := Done, blocks := results)];
  }

  lemma {:induction false} PrefixIsPlain()
    ensures Plain(FAILED_PREFIX)
  {
    var what, how := "This upload could ", "not be processed: ";
    assert Plain(what) && Plain(how) && FAILED_PREFIX == what + how;
  }

  lemma {:induction false} FailureRecognised(reason: string)
    ensures OnlyTheFailure([FailureParagraph(reason)])
  {
    WordsInFailureAreLost(reason + ".");
    Assoc(FAILED_PREFIX, reason, ".");
  }

  /**
   * Whatever is typed into the failure's paragraph, after how it begins, is taken for the failure, and goes on a retry.
   */
  lemma {:induction false} WordsInFailureAreLost(words: string)
    ensures OnlyTheFailure([Paragraph(FAILED_PREFIX + words, true)])
    ensures OnlyTheFailure([Paragraph(FAILED_PREFIX + words, true).(touched := true)])
  {
    PrefixIsPlain();
    var value, end := FAILED_PREFIX + words, Tag("/italic");
    ItalicStrips(value + end);
    Assoc(FAILED_PREFIX, words, end);
    StripPlain(FAILED_PREFIX, words + end);
    var shown := Strip(Emphasised(value));
    assert JoinStripped([Text(Emphasised(value))]) == shown + "";
    assert shown + "" == shown;
  }

  /** Words without a `<` are taken for a failure only in a paragraph that begins as one does. */
  lemma {:induction false} PlainWordsAreNoFailure(node: string, words: string, touched: bool)
    requires Plain(words)
    ensures OnlyTheFailure([Block(node, [Text(Emphasised(words))], touched)])
       <==> node == "paragraph" && FAILED_PREFIX <= words
  {
    EmphasisStrips(words);
    assert JoinStripped([Text(Emphasised(words))]) == words + "";
    assert words + "" == words;
  }

  /** And a section where someone typed only words in angle brackets loses them when its results come. */
  lemma {:induction false} TagLikeWordsAreLost(s: State, item: Item, words: string, results: seq<Block>)
    requires words != "" && (forall i | 0 <= i < |words| :: words[i] != '>') && results != []
    requires s.notes == [Section(item.id, item.title, Processing,
                                 [Paragraph(SECTION_PLACEHOLDER + Tag(words), true).(touched := true)])]
    ensures Swallows(s, Finished(item, results, Done))
  {
    TagLikeWordsAreUnseen(words);
  }

  // ---- the writer itself ------------------------------------------------------------------------------

  datatype ArtifactText = ArtifactText(kind: string, body: string)
  datatype Job = Job(failed: bool, error: Option<string>, message: Option<string>, strategy: string)

  /** How texts become blocks: parsing, and the wording of lines and durations, are left to these. */
  datatype Format = Format(summary: string -> seq<Block>, plain: string -> seq<Block>,
                           lines: string -> seq<string>, opening: seq<string> -> Block, count: (string, nat) -> Block)

  /** The first text of a kind that has anything in it. */
  function FirstOf(texts: seq<ArtifactText>, kind: string): (text: Option<ArtifactText>)
    ensures text.Some? ==> text.value in texts && text.value.kind == kind && text.value.body != ""
    ensures text.None? ==> forall i | 0 <= i < |texts| :: texts[i].kind == kind ==> texts[i].body == ""
  {
    if texts == [] then None
    else if texts[0].kind == kind && texts[0].body != "" then Some(texts[0])
    else FirstOf(texts[1..], kind)
  }

  /** What a finished job adds to its section: never nothing, and for a failed job the failure alone. */
  method ResultBlocks(job: Job, mediaType: string, texts: seq<ArtifactText>,
                      format: Format) returns (blocks: seq<Block>)
    ensures blocks != []
    ensures job.failed ==>
              blocks == [FailureParagraph(if job.error.Some? then job.error.value else "no reason was given")]
    ensures !job.failed && FirstOf(texts, "summary").Some? ==>
              format.summary(FirstOf(texts, "summary").value.body) <= blocks
    ensures !job.failed && FirstOf(texts, "transcript").Some? ==>
              var body := FirstOf(texts, "transcript").value.body;
              format.count(body, |format.lines(body)|) in blocks
    ensures !job.failed && FirstOf(texts, "summary").None? && FirstOf(texts, "transcript").Some? ==>
              var lines := format.lines(FirstOf(texts, "transcript").value.body);
              lines != [] ==> blocks[0] == format.opening(lines[..if |lines| < 3 then |lines| else 3])
    ensures !job.failed && FirstKind(texts, "enhanced").Some? ==>
              var body := FirstKind(texts, "enhanced").value.body;
              EndsWith(blocks, if mediaType == "text" && body != "" then format.plain(body)
                               else [Paragraph("Enhanced with " + job.strategy +
                                               ". Compare it with the original in the feed.", true)])
    ensures !job.failed && (forall i | 0 <= i < |texts| :: texts[i].kind !in {"summary", "transcript", "enhanced"}) ==>
              blocks == [Paragraph(if job.message.Some? then job.message.value else "Finished.", true)]
  {
    if job.failed {
      return [FailureParagraph(if job.error.Some? then job.error.value else "no reason was given")];
    }
    blocks := [];
    var summary, transcript := FirstOf(texts, "summary"), FirstOf(texts, "transcript");
    if summary.Some? {
      blocks := blocks + format.summary(summary.value.body);
    }
    if transcript.Some? {
      var lines := format.lines(transcript.value.body);
      if summary.None? && |lines| > 0 {
        blocks := blocks + [format.opening(lines[..if |lines| < 3 then |lines| else 3])];
      }
      blocks := blocks + [format.count(transcript.value.body, |lines|)];
    }
    ghost var said := blocks;
    var enhanced := FirstKind(texts, "enhanced");
    if enhanced.Some? {
      var more := [Paragraph("Enhanced with " + job.strategy + ". Compare it with the original in the feed.", true)];
      if mediaType == "text" && enhanced.value.body != "" {
        more := format.plain(enhanced.value.body);
      }
      blocks := blocks + more;
      AppendedEnds(said, more);
    }
    if |blocks| == 0 {
      blocks := blocks + [Paragraph(if job.message.Some? then job.message.value else "Finished.", true)];
    }
  }

  lemma {:induction false} AppendedEnds(said: seq<Block>, more: seq<Block>)
    ensures said <= said + more && EndsWith(said + more, more)
    ensures forall block | block in said :: block in said + more
    ensures said != [] ==> (said + more)[0] == said[0]
  {
  }

  predicate EndsWith(blocks: seq<Block>, end: seq<Block>) {
    |end| <= |blocks| && blocks[|blocks| - |end|..] == end
  }

  function FirstKind(texts: seq<ArtifactText>, kind: string): (text: Option<ArtifactText>)
    ensures text.Some? ==> text.value in texts && text.value.kind == kind
    ensures text.None? ==> forall i | 0 <= i < |texts| :: texts[i].kind != kind
  {
    if texts == [] then None else if texts[0].kind == kind then Some(texts[0]) else FirstKind(texts[1..], kind)
  }

  /** The document as the writer changes it, call by call; each call is the step of its name. */
  class Writer {
    var notes: seq<Top>
    var written: set<Id>

    function AsState(): State
      reads this
    {
      State(notes, written)
    }

    constructor ()
      ensures AsState() == EMPTY
    {
      notes, written := [], {};
    }

    method Add(section: Top)
      requires section.Section?
      modifies this
      ensures AsState() == State(old(notes) + [section], old(written) + {section.id})
    {
      written := written + {section.id};
      notes := notes + [section];
    }

    method OnUploaded(item: Item)
      modifies this
      ensures AsState() == Next(old(AsState()), Uploaded(item))
    {
      var at := FindSection(notes, item.id);
      if at.Some? || item.id in written { return; }
      Add(Create(item.id, item.title, Processing, []));
    }

    method OnRetrying(item: Item)
      modifies this
      ensures AsState() == Next(old(AsState()), Retrying(item))
    {
      var at := FindSection(notes, item.id);
      if at.None? { return; }
      var section := notes[at.value].(status := Processing);
      if OnlyTheFailure(section.blocks) {
        section := section.(blocks := [Paragraph(SECTION_PLACEHOLDER, true)]);
      }
      notes := notes[at.value := section];
    }

    method OnRenamed(item: Item)
      modifies this
      ensures AsState() == Next(old(AsState()), Renamed(item))
    {
      var at := FindSection(notes, item.id);
      if at.Some? {
        notes := notes[at.value := notes[at.value].(title := item.title)];
      }
    }

    method OnRemoved(id: Id)
      modifies this
      ensures AsState() == Next(old(AsState()), Removed(id))
    {
      var at := FindSection(notes, id);
      written := written + {id};
      if at.Some? {
        notes := notes[..at.value] + notes[at.value + 1..];
      }
    }

    method OnFinished(item: Item, results: seq<Block>, outcome: Outcome)
      modifies this
      ensures AsState() == Next(old(AsState()), Finished(item, results, outcome))
    {
      var at := FindSection(notes, item.id);
      if at.Some? {
        if notes[at.value].status == outcome { return; }
        notes := notes[at.value := Fill(notes[at.value], results, outcome).0];
        return;
      }
      if item.id in written { return; }
      Add(Create(item.id, item.title, outcome, results));
    }
  }
}
