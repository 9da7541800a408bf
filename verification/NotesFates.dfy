/**
 * What becomes of copies that leave their replica's table, and of the gateway's own edits, over every run of
 * `NotesHub`: exactly when a failed load takes a living copy out, and exactly when an edit's change is lost.
 */
module NotesFates {
  import opened NotesCopy
  import opened NotesHub
  import opened Options
  import opened Sequences

  /** The state after the first `i` steps. */
  function StateAt(s: State, steps: seq<Step>, i: nat): State
    requires IsRun(s, steps) && i <= |steps|
    decreases i
  {
    if i == 0 then s else StateAt(Next(s, steps[0]), steps[1..], i - 1)
  }

  lemma {:induction false} StepAt(s: State, steps: seq<Step>, i: nat)
    requires IsRun(s, steps) && i < |steps|
    ensures Enabled(StateAt(s, steps, i), steps[i])
    ensures StateAt(s, steps, i + 1) == Next(StateAt(s, steps, i), steps[i])
    decreases i
  {
    if i > 0 {
      StepAt(Next(s, steps[0]), steps[1..], i - 1);
    }
  }

  lemma {:induction false} EndAt(s: State, steps: seq<Step>)
    requires IsRun(s, steps)
    ensures StateAt(s, steps, |steps|) == After(s, steps)
    decreases steps
  {
    if steps != [] {
      EndAt(Next(s, steps[0]), steps[1..]);
    }
  }

  // ---- the table ------------------------------------------------------------------------------

  /** Copies in the table are their replica's own. */
  predicate OwnInv(s: State) {
    forall r | r in s.open :: s.open[r] < |s.copies| && s.copies[s.open[r]].replica == r
  }

  /** They listen; and a copy being dropped is in no table. */
  predicate TableInv(s: State) {
    && OwnInv(s)
    && (forall r | r in s.open :: !s.copies[s.open[r]].copy.destroyed)
    && (forall d | 0 <= d < |s.drops| :: s.drops[d].copy < |s.copies| && !IsOpen(s, s.drops[d].copy))
  }

  lemma {:induction false} SavesKeepTable(s: State, step: Step)
    requires Enabled(s, step) && Saves(step)
    ensures var t := Next(s, step);
            && t.open == s.open && |t.copies| == |s.copies|
            && (forall c | 0 <= c < |s.copies| ::
                  && t.copies[c].replica == s.copies[c].replica && t.copies[c].delivered == s.copies[c].delivered
                  && t.copies[c].load == s.copies[c].load && t.copies[c].copy.destroyed == s.copies[c].copy.destroyed)
  {
    if step.Receive? || step.EditApply? {
      SavesKeepTableOnEdit(s, step);
    } else {
      SavesKeepTableElse(s, step);
    }
  }

  lemma {:induction false} SavesKeepTableOnEdit(s: State, step: Step)
    requires Enabled(s, step) && Saves(step)
    requires step.Receive? || step.EditApply?
    ensures var t := Next(s, step);
            && t.open == s.open && |t.copies| == |s.copies|
            && (forall c | 0 <= c < |s.copies| ::
                  && t.copies[c].replica == s.copies[c].replica && t.copies[c].delivered == s.copies[c].delivered
                  && t.copies[c].load == s.copies[c].load && t.copies[c].copy.destroyed == s.copies[c].copy.destroyed)
  {
  }

  lemma {:induction false} SavesKeepTableElse(s: State, step: Step)
    requires Enabled(s, step) && Saves(step)
    requires !(step.Receive? || step.EditApply?)
    ensures var t := Next(s, step);
            && t.open == s.open && |t.copies| == |s.copies|
            && (forall c | 0 <= c < |s.copies| ::
                  && t.copies[c].replica == s.copies[c].replica && t.copies[c].delivered == s.copies[c].delivered
                  && t.copies[c].load == s.copies[c].load && t.copies[c].copy.destroyed == s.copies[c].copy.destroyed)
  {
  }

  lemma {:induction false} OwnStep(s: State, step: Step)
    requires OwnInv(s) && Enabled(s, step)
    ensures OwnInv(Next(s, step))
    ensures |s.copies| <= |Next(s, step).copies|
    ensures forall c | 0 <= c < |s.copies| :: Next(s, step).copies[c].replica == s.copies[c].replica
  {
    if Saves(step) {
      SavesKeepTable(s, step);
    } else {
      OwnStepElse(s, step);
    }
  }

  lemma {:induction false} OwnStepElse(s: State, step: Step)
    requires OwnInv(s) && Enabled(s, step) && !Saves(step)
    ensures OwnInv(Next(s, step))
    ensures |s.copies| <= |Next(s, step).copies|
    ensures forall c | 0 <= c < |s.copies| :: Next(s, step).copies[c].replica == s.copies[c].replica
  {
    if Loads(step) {
      OwnStepElseOnLoad(s, step);
    } else {
      OwnStepElseInTable(s, step);
    }
  }

  lemma {:induction false} OwnStepElseOnLoad(s: State, step: Step)
    requires OwnInv(s) && Enabled(s, step) && !Saves(step)
    requires Loads(step)
    ensures OwnInv(Next(s, step))
    ensures |s.copies| <= |Next(s, step).copies|
    ensures forall c | 0 <= c < |s.copies| :: Next(s, step).copies[c].replica == s.copies[c].replica
  {
  }

  lemma {:induction false} OwnStepElseInTable(s: State, step: Step)
    requires OwnInv(s) && Enabled(s, step) && !Saves(step)
    requires !Loads(step)
    ensures OwnInv(Next(s, step))
    ensures |s.copies| <= |Next(s, step).copies|
    ensures forall c | 0 <= c < |s.copies| :: Next(s, step).copies[c].replica == s.copies[c].replica
  {
  }

  /** A copy that is out of the table stays out, and is brought nothing more. */
  lemma {:induction false} OutStaysOut(s: State, step: Step, c: nat)
    requires OwnInv(s) && Enabled(s, step) && c < |s.copies| && !IsOpen(s, c)
    ensures c < |Next(s, step).copies| && !IsOpen(Next(s, step), c)
    ensures Next(s, step).copies[c].delivered == s.copies[c].delivered
  {
    if Saves(step) {
      SavesKeepTable(s, step);
    } else {
      OutStaysOutElse(s, step, c);
    }
  }

  lemma {:induction false} OutStaysOutElse(s: State, step: Step, c: nat)
    requires OwnInv(s) && Enabled(s, step) && !Saves(step) && c < |s.copies| && !IsOpen(s, c)
    ensures c < |Next(s, step).copies| && !IsOpen(Next(s, step), c)
    ensures Next(s, step).copies[c].delivered == s.copies[c].delivered
  {
    if step.Open? || step.EditBegin? {
      OutWhileOthersOpen(s, step, c);
    } else {
      NothingOpens(s, step, c);
    }
  }

  lemma {:induction false} OutWhileOthersOpen(s: State, step: Step, c: nat)
    requires Enabled(s, step) && (step.Open? || step.EditBegin?) && c < |s.copies| && !IsOpen(s, c)
    ensures c < |Next(s, step).copies| && !IsOpen(Next(s, step), c)
    ensures Next(s, step).copies[c].delivered == s.copies[c].delivered
  {
  }

  lemma {:induction false} NothingOpens(s: State, step: Step, c: nat)
    requires OwnInv(s) && Enabled(s, step) && !Saves(step) && !step.Open? && !step.EditBegin? && c < |s.copies|
    ensures c < |Next(s, step).copies| && (IsOpen(Next(s, step), c) ==> IsOpen(s, c))
    ensures !IsOpen(s, c) ==> Next(s, step).copies[c].delivered == s.copies[c].delivered
  {
    if Loads(step) {
      NothingOpensOnLoad(s, step, c);
    } else {
      NothingOpensElse(s, step, c);
    }
  }

  lemma {:induction false} NothingOpensOnLoad(s: State, step: Step, c: nat)
    requires OwnInv(s) && Enabled(s, step) && !Saves(step) && !step.Open? && !step.EditBegin? && c < |s.copies|
    requires Loads(step)
    ensures c < |Next(s, step).copies| && (IsOpen(Next(s, step), c) ==> IsOpen(s, c))
    ensures !IsOpen(s, c) ==> Next(s, step).copies[c].delivered == s.copies[c].delivered
  {
  }

  lemma {:induction false} NothingOpensElse(s: State, step: Step, c: nat)
    requires OwnInv(s) && Enabled(s, step) && !Saves(step) && !step.Open? && !step.EditBegin? && c < |s.copies|
    requires !Loads(step)
    ensures c < |Next(s, step).copies| && (IsOpen(Next(s, step), c) ==> IsOpen(s, c))
    ensures !IsOpen(s, c) ==> Next(s, step).copies[c].delivered == s.copies[c].delivered
  {
  }

  /** The steps that destroy a copy. */
  predicate Destroys(s: State, step: Step, c: nat)
    requires Enabled(s, step)
  {
    match step
    case LoadFail(k) => k == c
    case Discard(r) => s.open[r] == c
    case DropCheck(d) =>
      s.drops[d].copy == c && (s.copies[c].copy.pending == [] || s.drops[d].attempt >= RELEASE_SAVE_ATTEMPTS)
    case EditReturn(e) =>
      s.edits[e].copy == c && ReleasedAfterEdit(s.copies[c].copy, s.edits[e].alreadyOpen, IsOpen(s, c))
    case _ => false
  }

  lemma {:induction false} DestroyedOnlySo(s: State, step: Step, c: nat)
    requires Enabled(s, step) && c < |s.copies|
    ensures c < |Next(s, step).copies|
    ensures Next(s, step).copies[c].copy.destroyed <==> s.copies[c].copy.destroyed || Destroys(s, step, c)
  {
    if Saves(step) {
      SavesKeepTable(s, step);
    } else {
      DestroyedOnlySoElse(s, step, c);
    }
  }

  lemma {:induction false} DestroyedOnlySoElse(s: State, step: Step, c: nat)
    requires Enabled(s, step) && !Saves(step) && c < |s.copies|
    ensures c < |Next(s, step).copies|
    ensures Next(s, step).copies[c].copy.destroyed <==> s.copies[c].copy.destroyed || Destroys(s, step, c)
  {
  }

  /** Whatever destroys a copy, it is out of the table then. */
  lemma {:induction false} DestroyedIsOut(s: State, step: Step, c: nat)
    requires TableInv(s) && Enabled(s, step) && c < |s.copies| && Destroys(s, step, c)
    ensures c < |Next(s, step).copies| && !IsOpen(Next(s, step), c)
  {
  }

  /** A copy new to the table listens. */
  lemma {:induction false} NewInTable(s: State, step: Step, r: Replica)
    requires Enabled(s, step) && r in Next(s, step).open && (r !in s.open || s.open[r] != Next(s, step).open[r])
    ensures Next(s, step).open[r] == |s.copies| < |Next(s, step).copies|
    ensures !Next(s, step).copies[|s.copies|].copy.destroyed && r !in s.open
  {
    if step.Open? || step.EditBegin? {
      OpeningAdds(s, step);
    } else {
      NothingAdded(s, step);
    }
  }

  /** An opening adds a listening copy, to its replica's empty place, if it adds any. */
  lemma {:induction false} OpeningAdds(s: State, step: Step)
    requires Enabled(s, step) && (step.Open? || step.EditBegin?)
    ensures var t, n := Next(s, step), |s.copies|;
            || (t.open == s.open && t.copies == s.copies)
            || (|t.copies| == n + 1 && step.replica !in s.open && t.open == s.open[step.replica := n]
                && t.copies[n].replica == step.replica && !t.copies[n].copy.destroyed)
  {
  }

  lemma {:induction false} NothingAdded(s: State, step: Step)
    requires Enabled(s, step) && !step.Open? && !step.EditBegin?
    ensures |Next(s, step).copies| == |s.copies|
    ensures forall r | r in Next(s, step).open :: r in s.open && s.open[r] == Next(s, step).open[r]
  {
    if !Saves(step) {
      NothingAddedElse(s, step);
    }
  }

  lemma {:induction false} NothingAddedElse(s: State, step: Step)
    requires Enabled(s, step) && !step.Open? && !step.EditBegin? && !Saves(step)
    ensures |Next(s, step).copies| == |s.copies|
    ensures forall r | r in Next(s, step).open :: r in s.open && s.open[r] == Next(s, step).open[r]
  {
  }

  lemma {:induction false} NewDrop(s: State, step: Step, d: nat)
    requires OwnInv(s) && Enabled(s, step) && d < |Next(s, step).drops|
    ensures d < |s.drops| ==> Next(s, step).drops[d].copy == s.drops[d].copy
    ensures d >= |s.drops| ==>
              Next(s, step).drops[d].copy < |s.copies| && !IsOpen(Next(s, step), Next(s, step).drops[d].copy)
  {
  }

  lemma {:induction false} TableStep(s: State, step: Step)
    requires TableInv(s) && Enabled(s, step)
    ensures TableInv(Next(s, step))
  {
    var t := Next(s, step);
    OwnStep(s, step);
    forall r | r in t.open ensures !t.copies[t.open[r]].copy.destroyed {
      if r in s.open && s.open[r] == t.open[r] {
        var c := s.open[r];
        DestroyedOnlySo(s, step, c);
        if Destroys(s, step, c) {
          DestroyedIsOut(s, step, c);
        }
      } else {
        NewInTable(s, step, r);
      }
    }
    forall d | 0 <= d < |t.drops| ensures t.drops[d].copy < |t.copies| && !IsOpen(t, t.drops[d].copy) {
      NewDrop(s, step, d);
      if d < |s.drops| {
        OutStaysOut(s, step, s.drops[d].copy);
      }
    }
  }

  // ---- copies let go --------------------------------------------------------------------------

  /** Out of the table once, a copy is never in it again, nor relayed to again, whatever happens. */
  lemma {:induction false} NeverRelayedAgain(s: State, steps: seq<Step>, c: nat)
    requires OwnInv(s) && IsRun(s, steps) && c < |s.copies| && !IsOpen(s, c)
    ensures c < |After(s, steps).copies| && !IsOpen(After(s, steps), c)
    ensures After(s, steps).copies[c].delivered == s.copies[c].delivered
    decreases steps
  {
    if steps != [] {
      OwnStep(s, steps[0]);
      OutStaysOut(s, steps[0], c);
      NeverRelayedAgain(Next(s, steps[0]), steps[1..], c);
    }
  }

  /** The steps that take a copy still loading out of its replica's table, and leave it to load. */
  predicate LetsGo(s: State, step: Step, c: nat)
    requires Enabled(s, step) && c < |s.copies|
  {
    IsOpen(s, c) && match step
                    case DropBegin(r) => r == s.copies[c].replica
                    case Discard(r) => r == s.copies[c].replica
                    case LoadFail(k) => k != c && s.copies[k].replica == s.copies[c].replica
                    case _ => false
  }

  /** An edit past its start has its copy loaded. */
  predicate LoadedInv(s: State) {
    forall e | 0 <= e < |s.edits| && !s.edits[e].stage.Opening? ::
      s.edits[e].copy < |s.copies| && s.copies[s.edits[e].copy].load.Applied?
  }

  lemma {:induction false} LoadsAdvance(s: State, step: Step, c: nat)
    requires Enabled(s, step) && c < |s.copies|
    ensures c < |Next(s, step).copies|
    ensures s.copies[c].load.Applied? ==> Next(s, step).copies[c].load.Applied?
    ensures Next(s, step).copies[c].load.Asked? ==> s.copies[c].load.Asked?
  {
    if Saves(step) {
      SavesKeepTable(s, step);
    } else {
      LoadsAdvanceElse(s, step, c);
    }
  }

  lemma {:induction false} LoadsAdvanceElse(s: State, step: Step, c: nat)
    requires Enabled(s, step) && !Saves(step) && c < |s.copies|
    ensures c < |Next(s, step).copies|
    ensures s.copies[c].load.Applied? ==> Next(s, step).copies[c].load.Applied?
    ensures Next(s, step).copies[c].load.Asked? ==> s.copies[c].load.Asked?
  {
  }

  lemma {:induction false} EditsAdvance(s: State, step: Step, e: nat)
    requires Enabled(s, step) && e < |Next(s, step).edits| && !Next(s, step).edits[e].stage.Opening?
    ensures e < |s.edits| && Next(s, step).edits[e].copy == s.edits[e].copy
    ensures !s.edits[e].stage.Opening? || (step == EditApply(e) && s.edits[e].copy < |s.copies|
                                           && s.copies[s.edits[e].copy].load.Applied?)
  {
  }

  lemma {:induction false} LoadedStep(s: State, step: Step)
    requires LoadedInv(s) && Enabled(s, step)
    ensures LoadedInv(Next(s, step))
  {
    var t := Next(s, step);
    forall e | 0 <= e < |t.edits| && !t.edits[e].stage.Opening?
      ensures t.edits[e].copy < |t.copies| && t.copies[t.edits[e].copy].load.Applied?
    {
      EditsAdvance(s, step, e);
      LoadsAdvance(s, step, s.edits[e].copy);
    }
  }

  lemma {:induction false} ClosedOnlySo(s: State, step: Step, c: nat)
    requires OwnInv(s) && LoadedInv(s) && Enabled(s, step) && c < |s.copies| && IsOpen(s, c)
    requires c < |Next(s, step).copies| && !IsOpen(Next(s, step), c) && Next(s, step).copies[c].load.Asked?
    ensures LetsGo(s, step, c)
  {
    if Saves(step) {
      SavesKeepTable(s, step);
    } else {
      ClosedOnlySoElse(s, step, c);
    }
  }

  lemma {:induction false} ClosedOnlySoElse(s: State, step: Step, c: nat)
    requires OwnInv(s) && LoadedInv(s) && Enabled(s, step) && !Saves(step) && c < |s.copies| && IsOpen(s, c)
    requires c < |Next(s, step).copies| && !IsOpen(Next(s, step), c) && Next(s, step).copies[c].load.Asked?
    ensures LetsGo(s, step, c)
  {
  }

  predicate Opens(s: State, step: Step, r: Replica) {
    r !in s.open && (step == Open(r) || (step.EditBegin? && step.replica == r))
  }

  lemma {:induction false} BornInTable(s: State, step: Step, c: nat)
    requires Enabled(s, step) && |s.copies| <= c < |Next(s, step).copies|
    ensures IsOpen(Next(s, step), c) && c == |s.copies| && Opens(s, step, Next(s, step).copies[c].replica)
  {
    if step.Open? || step.EditBegin? {
      OpeningAdds(s, step);
    } else {
      NothingAdded(s, step);
    }
  }

  // ---- over the steps of one run --------------------------------------------------------------

  /** The state of the run `steps` after its first `i` steps. */
  function At(steps: seq<Step>, i: nat): State
    requires IsRun(INITIAL, steps) && i <= |steps|
  {
    StateAt(INITIAL, steps, i)
  }

  ghost predicate Good(s: State) { TableInv(s) && LoadedInv(s) }

  lemma {:induction false} GoodAt(s: State, steps: seq<Step>, i: nat)
    requires Good(s) && IsRun(s, steps) && i <= |steps|
    ensures Good(StateAt(s, steps, i))
    decreases i
  {
    if i > 0 {
      TableStep(s, steps[0]);
      LoadedStep(s, steps[0]);
      GoodAt(Next(s, steps[0]), steps[1..], i - 1);
    }
  }

  lemma {:induction false} GoodInitially()
    ensures Good(INITIAL)
  {
  }

  lemma {:induction false} RunGood(steps: seq<Step>, i: nat)
    requires IsRun(INITIAL, steps) && i <= |steps|
    ensures Good(At(steps, i))
  {
    GoodInitially();
    GoodAt(INITIAL, steps, i);
  }

  lemma {:induction false} RunNext(steps: seq<Step>, i: nat)
    requires IsRun(INITIAL, steps) && i < |steps|
    ensures Enabled(At(steps, i), steps[i]) && At(steps, i + 1) == Next(At(steps, i), steps[i])
  {
    StepAt(INITIAL, steps, i);
  }

  lemma {:induction false} RunStep(steps: seq<Step>, i: nat)
    requires IsRun(INITIAL, steps) && i < |steps|
    ensures Enabled(At(steps, i), steps[i]) && At(steps, i + 1) == Next(At(steps, i), steps[i])
    ensures Good(At(steps, i))
  {
    RunNext(steps, i);
    RunGood(steps, i);
  }

  /** Copies are never forgotten, and keep their replica. */
  lemma {:induction false} CopyStays(steps: seq<Step>, i: nat, k: nat, c: nat)
    requires IsRun(INITIAL, steps) && i <= k <= |steps| && c < |At(steps, i).copies|
    ensures c < |At(steps, k).copies| && At(steps, k).copies[c].replica == At(steps, i).copies[c].replica
    decreases k
  {
    if i < k {
      CopyStays(steps, i, k - 1, c);
      RunStep(steps, k - 1);
      OwnStep(At(steps, k - 1), steps[k - 1]);
    }
  }

  /** Out of the table at `i`, out of it at `k`. */
  lemma {:induction false} OutSince(steps: seq<Step>, i: nat, k: nat, c: nat)
    requires IsRun(INITIAL, steps) && i <= k <= |steps| && c < |At(steps, i).copies| && !IsOpen(At(steps, i), c)
    ensures c < |At(steps, k).copies| && !IsOpen(At(steps, k), c)
    ensures At(steps, k).copies[c].delivered == At(steps, i).copies[c].delivered
    decreases k
  {
    if i < k {
      OutSince(steps, i, k - 1, c);
      RunStep(steps, k - 1);
      OutStaysOut(At(steps, k - 1), steps[k - 1], c);
    }
  }

  /** The step that opened a copy. */
  lemma {:induction false} WasOpened(steps: seq<Step>, c: nat, k: nat) returns (j: nat)
    requires IsRun(INITIAL, steps) && k <= |steps| && c < |At(steps, k).copies|
    ensures j < k && |At(steps, j).copies| == c && Opens(At(steps, j), steps[j], At(steps, k).copies[c].replica)
    ensures c < |At(steps, j + 1).copies| && IsOpen(At(steps, j + 1), c)
    decreases k
  {
    RunStep(steps, k - 1);
    var s := At(steps, k - 1);
    if c < |s.copies| {
      j := WasOpened(steps, c, k - 1);
      OwnStep(s, steps[k - 1]);
    } else {
      BornInTable(s, steps[k - 1], c);
      j := k - 1;
    }
  }

  /** A copy still loading, out of the table, was let go at some step. */
  lemma {:induction false} WasLetGo(steps: seq<Step>, c: nat, b: nat, k: nat) returns (i: nat)
    requires IsRun(INITIAL, steps) && b <= k <= |steps| && c < |At(steps, b).copies| && IsOpen(At(steps, b), c)
    requires c < |At(steps, k).copies| && !IsOpen(At(steps, k), c) && At(steps, k).copies[c].load.Asked?
    ensures b <= i < k && c < |At(steps, i).copies| && Enabled(At(steps, i), steps[i])
    ensures LetsGo(At(steps, i), steps[i], c)
    decreases k
  {
    CopyStays(steps, b, k - 1, c);
    RunStep(steps, k - 1);
    var s := At(steps, k - 1);
    if IsOpen(s, c) {
      ClosedOnlySo(s, steps[k - 1], c);
      i := k - 1;
    } else {
      LoadsAdvance(s, steps[k - 1], c);
      i := WasLetGo(steps, c, b, k - 1);
    }
  }

  /** Let go at step `i` while loading; the copy its replica has open now was opened at the later step `j`. */
  ghost predicate ReopenedAfter(steps: seq<Step>, c: nat, i: nat, j: nat)
    requires IsRun(INITIAL, steps)
  {
    var s := At(steps, |steps|);
    && i < j < |steps| && c < |At(steps, i).copies|
    && Enabled(At(steps, i), steps[i]) && LetsGo(At(steps, i), steps[i], c)
    && Opens(At(steps, j), steps[j], At(steps, i).copies[c].replica)
    && At(steps, i).copies[c].replica in s.open && s.open[At(steps, i).copies[c].replica] == |At(steps, j).copies|
  }

  lemma {:induction false} OrphanWasReopened(steps: seq<Step>, c: nat, d: nat) returns (i: nat, j: nat)
    requires IsRun(INITIAL, steps)
    requires var s := At(steps, |steps|);
             c < |s.copies| && d < |s.copies| && d != c && s.copies[c].replica == s.copies[d].replica
             && IsOpen(s, d) && s.copies[c].load.Asked?
    ensures ReopenedAfter(steps, c, i, j)
  {
    var n := |steps|;
    var b := WasOpened(steps, c, n);
    i := WasLetGo(steps, c, b + 1, n);
    j := WasOpened(steps, d, n);
    CopyStays(steps, i, n, c);
    if j < i {
      CopyStays(steps, j + 1, i, d);
      CopyStays(steps, i, n, d);
      OpenStays(steps, i, n, d);
    }
  }

  /** Open now, open ever since it was opened. */
  lemma {:induction false} OpenStays(steps: seq<Step>, i: nat, k: nat, c: nat)
    requires IsRun(INITIAL, steps) && i <= k <= |steps| && c < |At(steps, i).copies| && c < |At(steps, k).copies|
    requires IsOpen(At(steps, k), c)
    ensures IsOpen(At(steps, i), c)
  {
    if !IsOpen(At(steps, i), c) {
      OutSince(steps, i, k, c);
    }
  }

  /** Taken out of the table by the step from `s` to `t`, and still listening. */
  predicate Orphaned(s: State, t: State, d: nat)
    requires d < |s.copies| && d < |t.copies|
  {
    IsOpen(s, d) && !IsOpen(t, d) && !t.copies[d].copy.destroyed
  }

  /**
   * A failed load takes another, living copy out of the table if and only if its replica has one open; which is if and
   * only if the copy was let go while it was loading and the room was opened again since.
   */
  lemma {:induction false} LoadFailOrphansIff(steps: seq<Step>, c: nat)
    requires IsRun(INITIAL, steps) && Enabled(After(INITIAL, steps), LoadFail(c))
    ensures var s := After(INITIAL, steps);
            var t := Next(s, LoadFail(c));
            var r := s.copies[c].replica;
            && |t.copies| == |s.copies|
            && ((exists d :: 0 <= d < |s.copies| && d != c && Orphaned(s, t, d)) <==> r in s.open && s.open[r] != c)
            && ((exists d :: 0 <= d < |s.copies| && d != c && Orphaned(s, t, d)) <==>
                (exists i, j :: ReopenedAfter(steps, c, i, j)))
  {
    EndAt(INITIAL, steps);
    var s := After(INITIAL, steps);
    var t := Next(s, LoadFail(c));
    var r := s.copies[c].replica;
    RunGood(steps, |steps|);
    if r in s.open && s.open[r] != c {
      var d := s.open[r];
      assert Orphaned(s, t, d);
      var i, j := OrphanWasReopened(steps, c, d);
      assert ReopenedAfter(steps, c, i, j);
    }
    if i, j :| ReopenedAfter(steps, c, i, j) {
      ReopenedIsNewer(steps, c, i, j);
    }
  }

  lemma {:induction false} ReopenedIsNewer(steps: seq<Step>, c: nat, i: nat, j: nat)
    requires IsRun(INITIAL, steps) && ReopenedAfter(steps, c, i, j)
    ensures var s := At(steps, |steps|);
            c < |s.copies| && s.copies[c].replica in s.open && s.open[s.copies[c].replica] > c
  {
    CopyStays(steps, i, j, c);
    CopyStays(steps, i, |steps|, c);
  }

  // ---- what was accepted is what is kept --------------------------------------------------------

  /** What a step accepts as new. */
  function Accepts(s: State, step: Step): Ops
    requires Enabled(s, step)
  {
    match step
    case Receive(c, ops) => News(s.copies[c].copy, ops)
    case EditApply(e) => News(s.copies[s.edits[e].copy].copy, s.edits[e].change)
    case _ => {}
  }

  lemma {:induction false} AcceptedStep(s: State, step: Step)
    requires Enabled(s, step)
    ensures Next(s, step).accepted == s.accepted + Accepts(s, step)
  {
  }

  /** Each accepted operation was accepted by one of the copies. */
  ghost predicate AcceptedBySome(s: State) {
    forall op | op in s.accepted :: exists c :: 0 <= c < |s.copies| && op in s.copies[c].accepted
  }

  lemma {:induction false} SomeAccepts(s: State, step: Step)
    requires AcceptedBySome(s) && Enabled(s, step)
    ensures AcceptedBySome(Next(s, step))
  {
    var t := Next(s, step);
    AcceptedStep(s, step);
    AcceptedGrows(s, step);
    forall op | op in t.accepted ensures exists c :: 0 <= c < |t.copies| && op in t.copies[c].accepted {
      if op in s.accepted {
        var c :| 0 <= c < |s.copies| && op in s.copies[c].accepted;
        assert op in t.copies[c].accepted;
      } else {
        var c := Accepter(s, step, op);
      }
    }
  }

  lemma {:induction false} Accepter(s: State, step: Step, op: Op) returns (c: nat)
    requires Enabled(s, step) && op in Accepts(s, step)
    ensures c < |Next(s, step).copies| && op in Next(s, step).copies[c].accepted
  {
    c := if step.Receive? then step.copy else s.edits[step.edit].copy;
  }

  ghost predicate Sound(s: State) { Inv(s) && KnownInv(s) && AcceptedBySome(s) }

  lemma {:induction false} SoundAt(s: State, steps: seq<Step>, i: nat)
    requires Sound(s) && IsRun(s, steps) && i <= |steps|
    ensures Sound(StateAt(s, steps, i))
    decreases i
  {
    if i > 0 {
      SavedStep(s, steps[0]);
      EditsStep(s, steps[0]);
      KnownStep(s, steps[0]);
      SomeAccepts(s, steps[0]);
      SoundAt(Next(s, steps[0]), steps[1..], i - 1);
    }
  }

  lemma {:induction false} RunSound(steps: seq<Step>, i: nat)
    requires IsRun(INITIAL, steps) && i <= |steps|
    ensures Sound(At(steps, i))
  {
    SoundInitially();
    SoundAt(INITIAL, steps, i);
  }

  lemma {:induction false} SoundInitially()
    ensures Sound(INITIAL)
  {
  }

  /** Stored, pending in some copy, or being appended for one. */
  ghost predicate Kept(s: State, op: Op) {
    op in s.stored || exists c :: 0 <= c < |s.copies| && Safe(s, c, op)
  }

  lemma {:induction false} KeptIffAccepted(s: State, op: Op)
    requires Sound(s)
    ensures Kept(s, op) <==> op in s.accepted
  {
    if op in s.accepted {
      var c :| 0 <= c < |s.copies| && op in s.copies[c].accepted;
      assert Safe(s, c, op);
    }
    if c :| 0 <= c < |s.copies| && Safe(s, c, op) {
      assert Brought(s, s.copies[c]);
    }
  }

  /** The steps of a run that accept `op`. */
  ghost predicate AcceptedAt(steps: seq<Step>, k: nat, op: Op)
    requires IsRun(INITIAL, steps) && k < |steps|
  {
    Enabled(At(steps, k), steps[k]) && op in Accepts(At(steps, k), steps[k])
  }

  lemma {:induction false} AcceptedIff(steps: seq<Step>, n: nat, op: Op)
    requires IsRun(INITIAL, steps) && n <= |steps|
    ensures op in At(steps, n).accepted <==> exists k :: 0 <= k < n && AcceptedAt(steps, k, op)
    decreases n
  {
    if n > 0 {
      AcceptedIff(steps, n - 1, op);
      RunNext(steps, n - 1);
      AcceptedStep(At(steps, n - 1), steps[n - 1]);
      assert op in Accepts(At(steps, n - 1), steps[n - 1]) <==> AcceptedAt(steps, n - 1, op);
    }
  }

  // ---- an edit whose copy is released before it is applied ---------------------------------------

  /** The events that release a loaded copy: the end of an edit that opened it, the last look of a drop, a discard. */
  predicate Releases(s: State, step: Step, c: nat)
    requires Enabled(s, step)
  {
    !step.LoadFail? && Destroys(s, step, c)
  }

  /** At step `k` copy `c` was released. */
  ghost predicate ReleasedAt(steps: seq<Step>, k: nat, c: nat)
    requires IsRun(INITIAL, steps) && k < |steps|
  {
    Enabled(At(steps, k), steps[k]) && Releases(At(steps, k), steps[k], c)
  }

  lemma {:induction false} LoadFailsForGood(s: State, step: Step, c: nat)
    requires Enabled(s, step) && c < |s.copies|
    ensures c < |Next(s, step).copies|
    ensures Next(s, step).copies[c].load.Failed? <==> s.copies[c].load.Failed? || step == LoadFail(c)
  {
    if Saves(step) {
      SavesKeepTable(s, step);
    } else {
      LoadFailsForGoodElse(s, step, c);
    }
  }

  lemma {:induction false} LoadFailsForGoodElse(s: State, step: Step, c: nat)
    requires Enabled(s, step) && !Saves(step) && c < |s.copies|
    ensures c < |Next(s, step).copies|
    ensures Next(s, step).copies[c].load.Failed? <==> s.copies[c].load.Failed? || step == LoadFail(c)
  {
  }

  /**
   * A copy that listened at `i` and whose load did not fail by `k` listens still, unless it was released in between.
   */
  lemma {:induction false} DestroyedIffReleased(steps: seq<Step>, i: nat, k: nat, c: nat)
    requires IsRun(INITIAL, steps) && i <= k <= |steps| && c < |At(steps, i).copies|
    requires !At(steps, i).copies[c].copy.destroyed
    requires c < |At(steps, k).copies| && !At(steps, k).copies[c].load.Failed?
    ensures At(steps, k).copies[c].copy.destroyed <==> exists x :: i <= x < k && ReleasedAt(steps, x, c)
    decreases k
  {
    if i < k {
      CopyStays(steps, i, k - 1, c);
      RunNext(steps, k - 1);
      LoadFailsForGood(At(steps, k - 1), steps[k - 1], c);
      DestroyedIffReleased(steps, i, k - 1, c);
      DestroyedOnlySo(At(steps, k - 1), steps[k - 1], c);
      assert Releases(At(steps, k - 1), steps[k - 1], c) <==> ReleasedAt(steps, k - 1, c);
    }
  }

  /** An edit keeps its copy and its change. */
  lemma {:induction false} EditStays(steps: seq<Step>, i: nat, k: nat, e: nat)
    requires IsRun(INITIAL, steps) && i <= k <= |steps| && e < |At(steps, i).edits|
    ensures e < |At(steps, k).edits|
    ensures At(steps, k).edits[e].copy == At(steps, i).edits[e].copy
    ensures At(steps, k).edits[e].change == At(steps, i).edits[e].change
    decreases k
  {
    if i < k {
      EditStays(steps, i, k - 1, e);
      RunNext(steps, k - 1);
      EditKept(At(steps, k - 1), steps[k - 1], e);
    }
  }

  lemma {:induction false} EditKept(s: State, step: Step, e: nat)
    requires Enabled(s, step) && e < |s.edits|
    ensures e < |Next(s, step).edits|
    ensures Next(s, step).edits[e].copy == s.edits[e].copy && Next(s, step).edits[e].change == s.edits[e].change
  {
    if Saves(step) {
      EditKeptOnSave(s, step, e);
    } else if Loads(step) {
      EditKeptOnLoad(s, step, e);
    } else {
      EditKeptElse(s, step, e);
    }
  }

  lemma {:induction false} EditKeptOnSave(s: State, step: Step, e: nat)
    requires Enabled(s, step) && e < |s.edits|
    requires Saves(step)
    ensures e < |Next(s, step).edits|
    ensures Next(s, step).edits[e].copy == s.edits[e].copy && Next(s, step).edits[e].change == s.edits[e].change
  {
  }

  lemma {:induction false} EditKeptOnLoad(s: State, step: Step, e: nat)
    requires Enabled(s, step) && e < |s.edits|
    requires Loads(step)
    ensures e < |Next(s, step).edits|
    ensures Next(s, step).edits[e].copy == s.edits[e].copy && Next(s, step).edits[e].change == s.edits[e].change
  {
  }

  lemma {:induction false} EditKeptElse(s: State, step: Step, e: nat)
    requires Enabled(s, step) && e < |s.edits|
    requires !Saves(step) && !Loads(step)
    ensures e < |Next(s, step).edits|
    ensures Next(s, step).edits[e].copy == s.edits[e].copy && Next(s, step).edits[e].change == s.edits[e].change
  {
  }

  /** An edit begins on its replica's own copy, listening. */
  lemma {:induction false} EditBegins(steps: seq<Step>, i: nat)
    requires IsRun(INITIAL, steps) && i < |steps| && steps[i].EditBegin?
    ensures var s, t := At(steps, i), At(steps, i + 1);
            && |t.edits| == |s.edits| + 1 && t.edits[|s.edits|].change == steps[i].change
            && var c := t.edits[|s.edits|].copy;
               c < |t.copies| && IsOpen(t, c) && !t.copies[c].copy.destroyed
  {
    RunStep(steps, i);
    RunGood(steps, i + 1);
  }

  /**
   * An edit's operation is lost, neither stored nor pending nor being appended anywhere, at any later time, if and only
   * if its copy was released between the edit's beginning and its being applied, and no one else's edit brought the
   * same operation.
   */
  lemma {:induction false} EditLostIff(steps: seq<Step>, i: nat, j: nat, op: Op)
    requires IsRun(INITIAL, steps) && i < j < |steps| && steps[i].EditBegin? && op in steps[i].change
    requires steps[j] == EditApply(|At(steps, i).edits|)
    ensures |At(steps, i).edits| < |At(steps, i + 1).edits|
    ensures var c := At(steps, i + 1).edits[|At(steps, i).edits|].copy;
            !Kept(After(INITIAL, steps), op) <==>
              && (exists k :: i < k < j && ReleasedAt(steps, k, c))
              && (forall k :: 0 <= k < |steps| && AcceptedAt(steps, k, op) ==> k == j)
  {
    var e := |At(steps, i).edits|;
    EditBegins(steps, i);
    var c := At(steps, i + 1).edits[e].copy;
    EditStays(steps, i + 1, j, e);
    CopyStays(steps, i + 1, j, c);
    RunNext(steps, j);
    assert Accepts(At(steps, j), steps[j]) == News(At(steps, j).copies[c].copy, steps[i].change);
    DestroyedIffReleased(steps, i + 1, j, c);
    RunSound(steps, j);
    RunSound(steps, |steps|);
    EndAt(INITIAL, steps);
    KeptIffAccepted(After(INITIAL, steps), op);
    AcceptedIff(steps, |steps|, op);
    AcceptedIff(steps, j, op);
    if op !in At(steps, j).accepted {
      EditKeptIffHeard(At(steps, j), e, op);
    }
    assert AcceptedAt(steps, j, op) <==> op in Accepts(At(steps, j), steps[j]);
  }

  // ---- what a load brings --------------------------------------------------------------------------

  /** Copy `c` holds `ops`, or will once its answered load is applied. */
  predicate Brings(s: State, c: nat, ops: Ops)
    requires c < |s.copies|
  {
    match s.copies[c].load
    case Answered(answer) => ops <= answer
    case Applied => ops <= s.copies[c].copy.doc
    case _ => false
  }

  lemma {:induction false} BringsStep(s: State, step: Step, c: nat, ops: Ops)
    requires Enabled(s, step) && c < |s.copies| && Brings(s, c, ops)
    ensures c < |Next(s, step).copies| && Brings(Next(s, step), c, ops)
  {
    if Saves(step) {
      BringsOnSave(s, step, c, ops);
    } else if Loads(step) {
      BringsOnLoad(s, step, c, ops);
    } else {
      BringsElse(s, step, c, ops);
    }
  }

  lemma {:induction false} BringsOnSave(s: State, step: Step, c: nat, ops: Ops)
    requires Enabled(s, step) && c < |s.copies| && Brings(s, c, ops) && Saves(step)
    ensures c < |Next(s, step).copies| && Brings(Next(s, step), c, ops)
  {
    SavesKeepTable(s, step);
    SavesKeepDocuments(s, step, c);
  }

  lemma {:induction false} SavesKeepDocuments(s: State, step: Step, c: nat)
    requires Enabled(s, step) && c < |s.copies| && Saves(step)
    ensures c < |Next(s, step).copies| && s.copies[c].copy.doc <= Next(s, step).copies[c].copy.doc
  {
    if step.Receive? || step.EditApply? {
      EditsKeepDocuments(s, step, c);
    }
  }

  lemma {:induction false} EditsKeepDocuments(s: State, step: Step, c: nat)
    requires Enabled(s, step) && c < |s.copies| && (step.Receive? || step.EditApply?)
    ensures c < |Next(s, step).copies| && s.copies[c].copy.doc <= Next(s, step).copies[c].copy.doc
  {
  }

  lemma {:induction false} BringsOnLoad(s: State, step: Step, c: nat, ops: Ops)
    requires Enabled(s, step) && c < |s.copies| && Brings(s, c, ops) && Loads(step)
    ensures c < |Next(s, step).copies| && Brings(Next(s, step), c, ops)
  {
  }

  lemma {:induction false} BringsElse(s: State, step: Step, c: nat, ops: Ops)
    requires Enabled(s, step) && c < |s.copies| && Brings(s, c, ops) && !Saves(step) && !Loads(step)
    ensures c < |Next(s, step).copies| && Brings(Next(s, step), c, ops)
  {
  }

  /** Once loaded, a copy holds all that was stored when its load was answered, from then on. */
  lemma {:induction false} LoadedHoldsStored(steps: seq<Step>, i: nat, k: nat, c: nat)
    requires IsRun(INITIAL, steps) && i < k <= |steps| && steps[i] == LoadAnswer(c)
    requires c < |At(steps, k).copies| && At(steps, k).copies[c].load.Applied?
    ensures At(steps, i).stored <= At(steps, k).copies[c].copy.doc
  {
    RunNext(steps, i);
    BringsSince(steps, i + 1, k, c, At(steps, i).stored);
  }

  lemma {:induction false} BringsSince(steps: seq<Step>, i: nat, k: nat, c: nat, ops: Ops)
    requires IsRun(INITIAL, steps) && i <= k <= |steps| && c < |At(steps, i).copies| && Brings(At(steps, i), c, ops)
    ensures c < |At(steps, k).copies| && Brings(At(steps, k), c, ops)
    decreases k
  {
    if i < k {
      BringsSince(steps, i, k - 1, c, ops);
      RunNext(steps, k - 1);
      BringsStep(At(steps, k - 1), steps[k - 1], c, ops);
    }
  }
}
