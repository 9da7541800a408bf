/**
 * What each call of the notes writer makes of an upload's section (gateway/src/notes/writer.ts and `fillSection` in
 * shared/src/notes.ts), told section by section: the gateway only ever adds, and results stand after what was there.
 */
module NotesResults {
  import opened NotesSections
  import opened NotesWriter
  import opened Options
  import opened Sequences
  import opened Sorting

  predicate About(step: NotesWriter.Step, id: Id) { !step.Person? && AboutId(step) == id }

  /** The blocks under an upload's heading; none if it has no section. */
  function BlocksUnder(notes: seq<Top>, id: Id): seq<Block> {
    match Find(notes, id) case None => [] case Some(i) => notes[i].blocks
  }

  /** A section whose blocks a call takes for the writer's own: they give way to what it writes. */
  predicate Replaced(was: Top, step: NotesWriter.Step)
    requires was.Section?
  {
    match step
    case Retrying(_) => OnlyTheFailure(was.blocks)
    case Finished(_, results, outcome) => was.status != outcome && IsPlaceholder(was.blocks) && results != []
    case _ => false
  }

  /** What a call writes into a section: the waiting text or results, in place of what was there or after it. */
  function Written(was: Top, step: NotesWriter.Step): seq<Block>
    requires was.Section?
  {
    match step
    case Retrying(_) => if OnlyTheFailure(was.blocks) then [Paragraph(SECTION_PLACEHOLDER, true)] else []
    case Finished(_, results, outcome) => if was.status != outcome then results else []
    case _ => []
  }

  /** The section as a call about it leaves it. */
  predicate Becomes(was: Top, now: Top, step: NotesWriter.Step) {
    && was.Section? && now.Section? && now.id == was.id
    && now.title == (if step.Renamed? then step.item.title else was.title)
    && now.status == (if step.Retrying? then Processing else if step.Finished? then step.outcome else was.status)
    && now.blocks == (if Replaced(was, step) then [] else was.blocks) + Written(was, step)
  }

  /** A section newly made for an upload that never had one. */
  predicate Made(now: Top, step: NotesWriter.Step) {
    && now.Section? && (step.Uploaded? || step.Finished?) && now.id == step.item.id && now.title == step.item.title
    && now.status == (if step.Finished? then step.outcome else Processing)
    && now.blocks == (if step.Finished? && step.results != [] then step.results
                      else [Paragraph(SECTION_PLACEHOLDER, true)])
  }

  /**
   * A call changes its own upload's section and nothing else: it stays in its place and becomes what is said; or it is
   * taken out; or it is made at the end, for an upload that never had one.
   */
  lemma {:induction false} CallDoes(s: State, step: NotesWriter.Step)
    requires !step.Person?
    ensures var t, id := Next(s, step), AboutId(step);
            match Find(s.notes, id)
            case Some(i) =>
              if step.Removed? then t == State(s.notes[..i] + s.notes[i + 1..], s.written + {id})
              else |t.notes| == |s.notes| && t.written == s.written && Becomes(s.notes[i], t.notes[i], step)
                   && forall k | 0 <= k < |s.notes| && k != i :: t.notes[k] == s.notes[k]
            case None =>
              if (step.Uploaded? || step.Finished?) && id !in s.written then
                && |t.notes| == |s.notes| + 1 && t.notes[..|s.notes|] == s.notes && Made(t.notes[|s.notes|], step)
                && t.written == s.written + {id}
              else t == s.(written := if step.Removed? then s.written + {id} else s.written)
  {
  }

  /** A completion puts the results after whatever is in the section, unless that is only the text it waited with. */
  lemma {:induction false} ResultsGoAfter(s: State, item: Item, results: seq<Block>, outcome: Outcome, i: nat)
    requires Find(s.notes, item.id) == Some(i) && s.notes[i].status != outcome && !IsPlaceholder(s.notes[i].blocks)
    ensures var t := Next(s, Finished(item, results, outcome));
            && t.notes == s.notes[i := Section(item.id, s.notes[i].title, outcome, s.notes[i].blocks + results)]
            && BlocksUnder(t.notes, item.id) == BlocksUnder(s.notes, item.id) + results
  {
    FindSame(s.notes, Next(s, Finished(item, results, outcome)).notes, i, item.id);
  }

  /** Tried again and finished: the results stand for the failure or the waiting text, or after all there is. */
  lemma {:induction false} RetryThenFinish(s: State, item: Item, results: seq<Block>, outcome: Outcome, i: nat)
    requires Find(s.notes, item.id) == Some(i) && results != []
    ensures var t := Next(Next(s, Retrying(item)), Finished(item, results, outcome));
            var was := s.notes[i].blocks;
            t.notes == s.notes[i := Section(item.id, s.notes[i].title, outcome,
                                            if OnlyTheFailure(was) || IsPlaceholder(was) then results
                                            else was + results)]
  {
    var waiting := Next(s, Retrying(item));
    var end := Next(waiting, Finished(item, results, outcome));
    FindSame(s.notes, waiting.notes, i, item.id);
    CallDoes(s, Retrying(item));
    CallDoes(waiting, Finished(item, results, outcome));
    WaitingTaken(s.notes[i], waiting.notes[i], Retrying(item));
    SameButOne(s.notes, waiting.notes, end.notes, i);
  }

  /** What a retry leaves is waited in, if it was before, or held only the failure. */
  lemma {:induction false} WaitingTaken(was: Top, now: Top, step: NotesWriter.Step)
    requires step.Retrying? && Becomes(was, now, step)
    ensures IsPlaceholder(now.blocks) <==> OnlyTheFailure(was.blocks) || IsPlaceholder(was.blocks)
    ensures !OnlyTheFailure(was.blocks) ==> now.blocks == was.blocks
  {
    PlaceholderRecognised();
  }

  lemma {:induction false} SameButOne(one: seq<Top>, two: seq<Top>, three: seq<Top>, i: nat)
    requires i < |one| == |two| == |three|
    requires forall k | 0 <= k < |one| && k != i :: one[k] == two[k] && two[k] == three[k]
    ensures three == one[i := three[i]]
  {
  }

  // ---- over runs -----------------------------------------------------------------------------------

  /** The step takes away what is under the upload's heading. */
  predicate Takes(s: State, step: NotesWriter.Step, id: Id) {
    match Find(s.notes, id)
    case None => false
    case Some(i) => About(step, id) && (step.Removed? || Replaced(s.notes[i], step))
  }

  /** Other calls leave all of it there, and add only after it. */
  lemma {:induction false} OnlyAdds(s: State, step: NotesWriter.Step, id: Id)
    requires Inv(s) && !step.Person? && !Takes(s, step, id)
    ensures BlocksUnder(s.notes, id) <= BlocksUnder(Next(s, step).notes, id)
  {
    var t := Next(s, step);
    CallDoes(s, step);
    if at :| Find(s.notes, id) == Some(at) {
      if step.Removed? {
        if i :| Find(s.notes, step.id) == Some(i) {
          FindPast(s.notes, i, at, id);
        }
      } else {
        FindKept(s.notes, t.notes, at, id);
      }
    }
  }

  lemma {:induction false} FindKept(before: seq<Top>, after: seq<Top>, at: nat, id: Id)
    requires Find(before, id) == Some(at) && at < |after| && |before| <= |after|
    requires forall k | 0 <= k <= at :: IsSection(after[k], id) <==> IsSection(before[k], id)
    ensures Find(after, id) == Some(at)
  {
    assert IsSection(after[at], id);
    assert forall k | 0 <= k < at :: !IsSection(before[k], id);
  }

  /** Another section is taken out. */
  lemma {:induction false} FindPast(notes: seq<Top>, i: nat, at: nat, id: Id)
    requires Find(notes, id) == Some(at) && i < |notes| && i != at
    ensures var left := notes[..i] + notes[i + 1..];
            Find(left, id).Some? && left[Find(left, id).value] == notes[at]
  {
    var left, to := notes[..i] + notes[i + 1..], if at < i then at else at - 1;
    assert IsSection(left[to], id);
    forall k | 0 <= k < to ensures !IsSection(left[k], id) {
      assert left[k] == notes[if k < i then k else k + 1];
    }
  }

  /** No call takes away what is under the heading, and no person any of `words` there. */
  predicate Spared(s: State, steps: seq<NotesWriter.Step>, id: Id, words: seq<Block>)
    decreases steps
  {
    steps == [] ||
      (&& !Takes(s, steps[0], id)
       && (steps[0].Person? && StandIn(words, BlocksUnder(s.notes, id)) ==>
             StandIn(words, BlocksUnder(steps[0].notes, id)))
       && Spared(Next(s, steps[0]), steps[1..], id, words))
  }

  lemma {:induction false} StandsOn(s: State, steps: seq<NotesWriter.Step>, id: Id, words: seq<Block>)
    requires Inv(s) && IsRun(s, steps) && StandIn(words, BlocksUnder(s.notes, id)) && Spared(s, steps, id, words)
    ensures StandIn(words, BlocksUnder(After(s, steps).notes, id))
    decreases steps
  {
    if steps != [] {
      var t := Next(s, steps[0]);
      InvStep(s, steps[0]);
      if !steps[0].Person? {
        OnlyAdds(s, steps[0], id);
        StandBefore(words, BlocksUnder(s.notes, id), BlocksUnder(t.notes, id));
      }
      StandsOn(t, steps[1..], id, words);
    }
  }

  lemma {:induction false} StandBefore(words: seq<Block>, all: seq<Block>, more: seq<Block>)
    requires StandIn(words, all) && all <= more
    ensures StandIn(words, more)
    decreases all
  {
    if words != [] {
      assert all[1..] <= more[1..];
      if words[0] == all[0] && StandIn(words[1..], all[1..]) {
        StandBefore(words[1..], all[1..], more[1..]);
      } else {
        StandBefore(words, all[1..], more[1..]);
      }
    }
  }

  lemma {:induction false} StandsAsItIs(words: seq<Block>)
    ensures StandIn(words, words)
    decreases words
  {
    if words != [] {
      StandsAsItIs(words[1..]);
    }
  }

  /**
   * Results that come after a person's words stand there, after all that was there when they came, through every run of
   * calls and of people's edits, until a person takes some of it, or the upload is removed, or a retry takes a
   * failure that stands alone.
   */
  lemma {:induction false} ResultsStand(s: State, item: Item, results: seq<Block>, outcome: Outcome, i: nat,
                                        steps: seq<NotesWriter.Step>)
    requires Inv(s) && NobodysWords(results)
    requires Find(s.notes, item.id) == Some(i) && s.notes[i].status != outcome && !IsPlaceholder(s.notes[i].blocks)
    requires var t := Next(s, Finished(item, results, outcome));
             IsRun(t, steps) && Spared(t, steps, item.id, s.notes[i].blocks + results)
    ensures var t := Next(s, Finished(item, results, outcome));
            StandIn(s.notes[i].blocks + results, BlocksUnder(After(t, steps).notes, item.id))
  {
    var t, words := Next(s, Finished(item, results, outcome)), s.notes[i].blocks + results;
    ResultsGoAfter(s, item, results, outcome, i);
    InvStep(s, Finished(item, results, outcome));
    StandsAsItIs(words);
    StandsOn(t, steps, item.id, words);
  }
}
