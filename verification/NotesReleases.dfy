/**
 * The copies that the gateway's own edits open (`edit` in gateway/src/docs/roomDocs.ts): when the end of an edit lets
 * its copy go, over every run of `NotesHub`. Who sits in a copy is told by the joins and leaves of the run.
 */
module NotesReleases {
  import opened NotesCopy
  import opened NotesHub
  import opened NotesFates
  import opened Options
  import opened Sequences

  /** Step `j` of the run seats `peer` in copy `c`. */
  ghost predicate JoinsAt(steps: seq<Step>, j: nat, c: nat, peer: Peer) {
    j < |steps| && steps[j] == NotesHub.Step.Join(c, peer)
  }

  /** Step `l` takes `peer` out of copy `c`, which its replica has open. */
  ghost predicate LeavesAt(steps: seq<Step>, l: nat, c: nat, peer: Peer)
    requires IsRun(INITIAL, steps) && l <= |steps|
  {
    && l < |steps| && c < |At(steps, l).copies| && IsOpen(At(steps, l), c)
    && steps[l] == NotesHub.Step.Leave(At(steps, l).copies[c].replica, peer)
  }

  /** `peer` joined copy `c` among the first `k` steps, and has not left it since. */
  ghost predicate StillThere(steps: seq<Step>, k: nat, c: nat, peer: Peer)
    requires IsRun(INITIAL, steps) && k <= |steps|
  {
    exists j :: 0 <= j < k && JoinsAt(steps, j, c, peer) && forall l | j < l < k :: !LeavesAt(steps, l, c, peer)
  }

  // ---- who is there ------------------------------------------------------------------------------

  /** What one step does to those in a copy. */
  ghost function Peers(s: State, step: Step, c: nat): set<Peer>
    requires Enabled(s, step) && c < |s.copies|
  {
    var peers := s.copies[c].copy.peers;
    match step
    case Join(d, peer) => if d == c then peers + {peer} else peers
    case Leave(r, peer) => if s.open[r] == c then peers - {peer} else peers
    case _ => peers
  }

  lemma {:induction false} PeersStep(s: State, step: Step, c: nat)
    requires Enabled(s, step) && c < |s.copies|
    ensures c < |Next(s, step).copies| && Next(s, step).copies[c].copy.peers == Peers(s, step, c)
  {
    if Saves(step) {
      PeersOnSave(s, step, c);
    } else if Loads(step) {
      PeersOnLoad(s, step, c);
    } else {
      PeersElse(s, step, c);
    }
  }

  lemma {:induction false} PeersOnSave(s: State, step: Step, c: nat)
    requires Enabled(s, step) && c < |s.copies| && Saves(step)
    ensures c < |Next(s, step).copies| && Next(s, step).copies[c].copy.peers == s.copies[c].copy.peers
  {
  }

  lemma {:induction false} PeersOnLoad(s: State, step: Step, c: nat)
    requires Enabled(s, step) && c < |s.copies| && Loads(step)
    ensures c < |Next(s, step).copies| && Next(s, step).copies[c].copy.peers == Peers(s, step, c)
  {
  }

  lemma {:induction false} PeersElse(s: State, step: Step, c: nat)
    requires Enabled(s, step) && c < |s.copies| && !Saves(step) && !Loads(step)
    ensures c < |Next(s, step).copies| && Next(s, step).copies[c].copy.peers == s.copies[c].copy.peers
  {
  }

  lemma {:induction false} NewIsEmpty(s: State, step: Step, c: nat)
    requires Enabled(s, step) && |s.copies| <= c < |Next(s, step).copies|
    ensures Next(s, step).copies[c].copy.peers == {}
  {
    if !step.Open? && !step.EditBegin? {
      NothingAdded(s, step);
    }
  }

  /** Those in a copy are those who joined it and have not left. */
  lemma {:induction false} PeersAreThere(steps: seq<Step>, k: nat, c: nat, peer: Peer)
    requires IsRun(INITIAL, steps) && k <= |steps| && c < |At(steps, k).copies|
    ensures peer in At(steps, k).copies[c].copy.peers <==> StillThere(steps, k, c, peer)
    decreases k
  {
    if k > 0 {
      var s, step := At(steps, k - 1), steps[k - 1];
      RunStep(steps, k - 1);
      if c < |s.copies| {
        PeersAreThere(steps, k - 1, c, peer);
        PeersStep(s, step, c);
        OneMoreStep(steps, k, c, peer);
      } else {
        NewIsEmpty(s, step, c);
        NoneJoined(steps, k, c, peer);
      }
    }
  }

  lemma {:induction false} OneMoreStep(steps: seq<Step>, k: nat, c: nat, peer: Peer)
    requires IsRun(INITIAL, steps) && 0 < k <= |steps|
    ensures StillThere(steps, k, c, peer) <==>
              || JoinsAt(steps, k - 1, c, peer)
              || (StillThere(steps, k - 1, c, peer) && !LeavesAt(steps, k - 1, c, peer))
  {
    if StillThere(steps, k - 1, c, peer) && !LeavesAt(steps, k - 1, c, peer) {
      var j :| 0 <= j < k - 1 && JoinsAt(steps, j, c, peer) && forall l | j < l < k - 1 :: !LeavesAt(steps, l, c, peer);
      assert forall l | j < l < k :: !LeavesAt(steps, l, c, peer);
    }
  }

  /** Nobody joins a copy that is not there yet. */
  lemma {:induction false} NoneJoined(steps: seq<Step>, k: nat, c: nat, peer: Peer)
    requires IsRun(INITIAL, steps) && 0 < k <= |steps| && c >= |At(steps, k - 1).copies|
    ensures !StillThere(steps, k, c, peer)
  {
    forall j | 0 <= j < k ensures !JoinsAt(steps, j, c, peer) {
      RunStep(steps, j);
      if c < |At(steps, j).copies| {
        CopyStays(steps, j, k - 1, c);
      }
    }
  }

  // ---- the end of an edit --------------------------------------------------------------------------

  /** An edit remembers whether its copy was open before it. */
  lemma {:induction false} OpenedByStays(steps: seq<Step>, i: nat, k: nat, e: nat)
    requires IsRun(INITIAL, steps) && i <= k <= |steps| && e < |At(steps, i).edits|
    ensures e < |At(steps, k).edits| && At(steps, k).edits[e].copy == At(steps, i).edits[e].copy
    ensures At(steps, k).edits[e].alreadyOpen == At(steps, i).edits[e].alreadyOpen
    decreases k
  {
    if i < k {
      OpenedByStays(steps, i, k - 1, e);
      RunNext(steps, k - 1);
      EditKept(At(steps, k - 1), steps[k - 1], e);
      AlreadyOpenKept(At(steps, k - 1), steps[k - 1], e);
    }
  }

  lemma {:induction false} AlreadyOpenKept(s: State, step: Step, e: nat)
    requires Enabled(s, step) && e < |s.edits| && e < |Next(s, step).edits|
    ensures Next(s, step).edits[e].alreadyOpen == s.edits[e].alreadyOpen
  {
  }

  /** The gateway's own edit, begun at step `i`, is number `e` of all, and on copy `c`. */
  ghost predicate EditOn(steps: seq<Step>, i: nat, e: nat, c: nat)
    requires IsRun(INITIAL, steps)
  {
    && i < |steps| && steps[i].EditBegin? && e == |At(steps, i).edits| < |At(steps, i + 1).edits|
    && c == At(steps, i + 1).edits[e].copy
  }

  /**
   * The end of an edit takes its copy out of the table, and destroys it, if and only if the edit itself opened it,
   * no one who joined it is still there, nothing is pending in it, and it is still the one its replica has open.
   */
  lemma {:induction false} EditReleasesIff(steps: seq<Step>, i: nat, k: nat, e: nat, c: nat)
    requires IsRun(INITIAL, steps) && EditOn(steps, i, e, c) && i < k < |steps| && steps[k] == EditReturn(e)
    ensures c < |At(steps, k).copies| && c < |At(steps, k + 1).copies|
    ensures var s, t, r := At(steps, k), At(steps, k + 1), steps[i].replica;
            var released := && r !in At(steps, i).open && (forall peer :: !StillThere(steps, k, c, peer))
                            && s.copies[c].copy.pending == [] && r in s.open && s.open[r] == c;
            && (IsOpen(s, c) && !IsOpen(t, c) <==> released)
            && (t.copies[c].copy.destroyed <==> s.copies[c].copy.destroyed || released)
            && t.open == if released then s.open - {r} else s.open
  {
    RunStep(steps, i);
    RunGood(steps, i + 1);
    EditOpens(At(steps, i), steps[i]);
    OpenedByStays(steps, i + 1, k, e);
    CopyStays(steps, i + 1, k, c);
    RunStep(steps, k);
    forall peer ensures peer in At(steps, k).copies[c].copy.peers <==> StillThere(steps, k, c, peer) {
      PeersAreThere(steps, k, c, peer);
    }
    var peers := At(steps, k).copies[c].copy.peers;
    if forall peer :: !StillThere(steps, k, c, peer) {
      assert peers == {};
    }
    EditEnds(At(steps, k), e);
  }

  /** An edit begins on the copy its replica has open, opened for it if there was none. */
  lemma {:induction false} EditOpens(s: State, step: Step)
    requires OwnInv(s) && Enabled(s, step) && step.EditBegin?
    ensures var t := Next(s, step);
            && |t.edits| == |s.edits| + 1
            && var edit := t.edits[|s.edits|];
               && edit.copy < |t.copies| && t.copies[edit.copy].replica == step.replica
               && (edit.alreadyOpen <==> step.replica in s.open)
  {
  }

  lemma {:induction false} EditEnds(s: State, e: nat)
    requires OwnInv(s) && Enabled(s, EditReturn(e))
    ensures var t, c := Next(s, EditReturn(e)), s.edits[e].copy;
            var copy, r := s.copies[c].copy, s.copies[c].replica;
            var released := !s.edits[e].alreadyOpen && copy.peers == {} && copy.pending == [] && IsOpen(s, c);
            && |t.copies| == |s.copies| && t.copies[c].replica == r
            && t.open == (if released then s.open - {r} else s.open)
            && (t.copies[c].copy.destroyed <==> copy.destroyed || released)
  {
  }

  // ---- nothing waits for good ----------------------------------------------------------------------

  /** What waits in a copy can always be saved: its flush may come, and an append that goes through stores it all. */
  lemma {:induction false} WaitingCanBeStored(steps: seq<NotesHub.Step>, c: nat)
    requires IsRun(INITIAL, steps) && c < |After(INITIAL, steps).copies|
    requires var held := After(INITIAL, steps).copies[c]; held.copy.pending != [] && !held.givenUp && !held.discarded
    ensures var s := After(INITIAL, steps);
            && Enabled(s, Flush(c))
            && var t := Next(s, Flush(c));
               && Enabled(t, AppendOk(s.flushes))
               && Merged(s.copies[c].copy.pending) <= Next(t, AppendOk(s.flushes)).stored
  {
    InvAlways(INITIAL, steps);
    assert CopyInv(After(INITIAL, steps).copies[c]);
  }

  /** How many steps an edit is from its end, if nothing else happens. */
  function StepsLeft(s: State, e: nat): nat
    requires e < |s.edits| && s.edits[e].copy < |s.copies|
  {
    match s.edits[e].stage
    case Returned(_, _) => 0
    case Flushed(_, _, saving) => if Done(s, saving) then 1 else 2
    case Opening =>
      match s.copies[s.edits[e].copy].load {
        case Asked => 5
        case Answered(_) => 4
        case _ => 3
      }
  }

  /** Its next step. */
  function NextOf(s: State, e: nat): NotesHub.Step
    requires e < |s.edits| && s.edits[e].copy < |s.copies|
  {
    match s.edits[e].stage
    case Flushed(_, _, Some(b)) => if b in s.savings then AppendOk(b) else EditReturn(e)
    case Opening =>
      (match s.copies[s.edits[e].copy].load
       case Asked => LoadAnswer(s.edits[e].copy)
       case Answered(_) => LoadApply(s.edits[e].copy)
       case _ => EditApply(e))
    case _ => EditReturn(e)
  }

  lemma {:induction false} NextIsPossible(s: State, e: nat)
    requires Inv(s) && e < |s.edits| && s.edits[e].copy < |s.copies| && !s.edits[e].stage.Returned?
    requires s.edits[e].stage.Opening? ==> !s.copies[s.edits[e].copy].load.Failed?
    ensures Enabled(s, NextOf(s, e))
    ensures var t := Next(s, NextOf(s, e));
            && e < |t.edits| && t.edits[e].copy == s.edits[e].copy && s.edits[e].copy < |t.copies|
            && StepsLeft(t, e) < StepsLeft(s, e)
            && (t.edits[e].stage.Opening? ==> !t.copies[t.edits[e].copy].load.Failed?)
  {
    assert EditInv(s, s.edits[e]);
  }

  /** An edit can always come to its end: within five steps, unless its load has failed. */
  lemma {:induction false} EditCanReturn(s: State, e: nat) returns (more: seq<NotesHub.Step>)
    requires Inv(s) && e < |s.edits| && s.edits[e].copy < |s.copies|
    requires s.edits[e].stage.Opening? ==> !s.copies[s.edits[e].copy].load.Failed?
    ensures IsRun(s, more) && |more| <= StepsLeft(s, e) <= 5
    ensures e < |After(s, more).edits| && After(s, more).edits[e].stage.Returned?
    decreases StepsLeft(s, e)
  {
    more := [];
    if !s.edits[e].stage.Returned? {
      var step := NextOf(s, e);
      NextIsPossible(s, e);
      SavedStep(s, step);
      EditsStep(s, step);
      var rest := EditCanReturn(Next(s, step), e);
      more := [step] + rest;
      assert more[1..] == rest;
    }
  }

  /** An open copy can be told of everything that was ever published, and anyone in it can leave. */
  lemma {:induction false} OpenCopyIsReached(steps: seq<NotesHub.Step>, r: Replica, message: nat, peer: Peer)
    requires IsRun(INITIAL, steps)
    requires var s := After(INITIAL, steps); r in s.open && message < |s.log|
    ensures var s := After(INITIAL, steps);
            var c := s.open[r];
            && Enabled(s, Relay(r, message)) && Enabled(s, NotesHub.Step.Leave(r, peer))
            && c < |Next(s, Relay(r, message)).copies| && c < |Next(s, NotesHub.Step.Leave(r, peer)).copies|
            && s.log[message] <= Next(s, Relay(r, message)).copies[c].copy.doc
            && peer !in Next(s, NotesHub.Step.Leave(r, peer)).copies[c].copy.peers
  {
    EndAt(INITIAL, steps);
    RunGood(steps, |steps|);
  }
}
