/**
 * One notes document on any number of replicas (`RoomDocHub`, gateway/src/docs/roomDocs.ts). Each replica may have a
 * copy open; copies let go of stay in the state, because a save still in flight may hand its batch back to them.
 * Every stretch between two awaits is one step, and steps of all replicas interleave freely. Storage is the set of
 * operations saved; `NotesStorage` shows that this is what its tables amount to.
 */
module NotesHub {
  import opened NotesCopy
  import opened Options
  import opened Sequences

  type Replica = string

  /** The load that opens a copy: asked for, answered with what was stored then, applied, or failed. */
  datatype Load = Asked | Answered(ops: Ops) | Applied | Failed
  /** The one later look at storage. */
  datatype CatchUp = Due | Seen(ops: Ops) | CaughtUp(ops: Ops)

  /** A copy a replica holds or held. The second line is what has happened so far, for the claims below. */
  datatype Held = Held(replica: Replica, copy: Copy, load: Load, catchUp: CatchUp, givenUp: bool, discarded: bool,
                       accepted: Ops, openedAt: nat, acceptedBefore: Ops, delivered: set<nat>)

  /** A batch being appended. */
  datatype Saving = Saving(copy: nat, batch: seq<Ops>)

  datatype DropStage = BetweenFlushes | Flushing(saving: Option<nat>) | Released
  datatype Drop = Drop(copy: nat, attempt: nat, stage: DropStage)

  /** `added` is what the change added to the document; `heard` that the copy's listener took note of it. */
  datatype EditStage = Opening | Flushed(added: Ops, heard: bool, saving: Option<nat>)
      | Returned(added: Ops, heard: bool)
  datatype Edit = Edit(copy: nat, alreadyOpen: bool, change: Ops, stage: EditStage)

  datatype State = State(
    open: map<Replica, nat>, copies: seq<Held>, stored: Ops, savings: map<nat, Saving>, flushes: nat,
    drops: seq<Drop>, edits: seq<Edit>,
    // every update accepted anywhere, and every update published, in order
    accepted: Ops, log: seq<Ops>)

  const INITIAL := State(map[], [], {}, map[], 0, [], [], {}, [])

  datatype Step =
    | Open(replica: Replica)
    | LoadAnswer(copy: nat)
    | LoadApply(copy: nat)
    | LoadFail(copy: nat)
    | CatchUpAnswer(copy: nat)
    | CatchUpApply(copy: nat)
    | Receive(copy: nat, ops: Ops)
    | Join(copy: nat, peer: Peer)
    | Leave(replica: Replica, peer: Peer)
    | Relay(replica: Replica, message: nat)
    | Flush(copy: nat)
    | AppendOk(saving: nat)
    | AppendFail(saving: nat, savedAnyway: bool)
    | DropBegin(replica: Replica)
    | DropFlush(drop: nat)
    | DropCheck(drop: nat)
    | Discard(replica: Replica)
    | EditBegin(replica: Replica, change: Ops)
    | EditApply(edit: nat)
    | EditReturn(edit: nat)

  predicate IsOpen(s: State, c: nat)
    requires c < |s.copies|
  {
    s.copies[c].replica in s.open && s.open[s.copies[c].replica] == c
  }

  predicate Done(s: State, saving: Option<nat>) { saving.None? || saving.value !in s.savings }

  predicate Enabled(s: State, step: Step) {
    match step
    case Open(_) => true
    case LoadAnswer(c) => c < |s.copies| && s.copies[c].load.Asked?
    case LoadApply(c) => c < |s.copies| && s.copies[c].load.Answered?
    case LoadFail(c) => c < |s.copies| && s.copies[c].load.Asked?
    case CatchUpAnswer(c) => c < |s.copies| && s.copies[c].load.Applied? && s.copies[c].catchUp.Due? && IsOpen(s, c)
    case CatchUpApply(c) => c < |s.copies| && s.copies[c].catchUp.Seen? && IsOpen(s, c)
    case Receive(c, _) => c < |s.copies| && s.copies[c].load.Applied?
    case Join(c, _) => c < |s.copies| && s.copies[c].load.Applied?
    case Leave(r, _) => r in s.open && s.open[r] < |s.copies|
    case Relay(r, i) => r in s.open && s.open[r] < |s.copies| && i < |s.log|
    case Flush(c) => c < |s.copies| && (s.copies[c].copy.flushTimer || IsOpen(s, c))
    case AppendOk(b) => b in s.savings && s.savings[b].copy < |s.copies|
    case AppendFail(b, _) => b in s.savings && s.savings[b].copy < |s.copies|
    case DropBegin(r) => r in s.open
    case DropFlush(d) =>
      && d < |s.drops| && s.drops[d].stage.BetweenFlushes? && s.drops[d].copy < |s.copies|
      && (s.copies[s.drops[d].copy].load.Applied? || s.copies[s.drops[d].copy].load.Failed?)
    case DropCheck(d) =>
      d < |s.drops| && s.drops[d].stage.Flushing? && Done(s, s.drops[d].stage.saving) && s.drops[d].copy < |s.copies|
    case Discard(r) => r in s.open && s.open[r] < |s.copies|
    case EditBegin(_, _) => true
    case EditApply(e) =>
      && e < |s.edits| && s.edits[e].stage.Opening? && s.edits[e].copy < |s.copies|
      && s.copies[s.edits[e].copy].load.Applied?
    case EditReturn(e) =>
      e < |s.edits| && s.edits[e].stage.Flushed? && Done(s, s.edits[e].stage.saving) && s.edits[e].copy < |s.copies|
  }

  /** The copy a replica has open, opened if need be. */
  function Opened(s: State, r: Replica): State {
    if r in s.open then s
    else s.(open := s.open[r := |s.copies|],
            copies := s.copies + [Held(r, NEW_COPY, Asked, Due, false, false, {}, |s.log|, s.accepted, {})])
  }

  function WithCopy(s: State, c: nat, copy: Copy): State
    requires c < |s.copies|
  {
    s.(copies := s.copies[c := s.copies[c].(copy := copy)])
  }

  /** An edit made here: queued, published, and counted as accepted if the copy still listens. */
  function Accepting(s: State, c: nat, ops: Ops): State
    requires c < |s.copies|
  {
    var held := s.copies[c];
    var news := News(held.copy, ops);
    s.(copies := s.copies[c := held.(copy := Accept(held.copy, ops), accepted := held.accepted + news)],
       accepted := s.accepted + news,
       log := if news == {} then s.log else s.log + [news])
  }

  /** The start of `flush`, up to its await. */
  function StartFlush(s: State, c: nat): State
    requires c < |s.copies|
  {
    var copy := s.copies[c].copy;
    var taken := WithCopy(s, c, Taken(copy));
    if copy.pending == [] then taken
    else taken.(savings := s.savings[s.flushes := Saving(c, copy.pending)], flushes := s.flushes + 1)
  }

  function StartedSaving(s: State, c: nat): Option<nat>
    requires c < |s.copies|
  {
    if s.copies[c].copy.pending == [] then None else Some(s.flushes)
  }

  function Closed(s: State, r: Replica): State { s.(open := s.open - {r}) }

  function Next(s: State, step: Step): State
    requires Enabled(s, step)
  {
    match step
    case Open(r) => Opened(s, r)
    case LoadAnswer(c) => s.(copies := s.copies[c := s.copies[c].(load := Answered(s.stored))])
    case LoadApply(c) =>
      s.(copies := s.copies[c := s.copies[c].(load := Applied, copy := Apply(s.copies[c].copy, s.copies[c].load.ops))])
    case LoadFail(c) =>
      // whichever copy the replica now has open goes from its table
      Closed(s.(copies := s.copies[c := s.copies[c].(load := Failed, copy := Destroyed(s.copies[c].copy))]),
             s.copies[c].replica)
    case CatchUpAnswer(c) => s.(copies := s.copies[c := s.copies[c].(catchUp := Seen(s.stored))])
    case CatchUpApply(c) =>
      var seen := s.copies[c].catchUp.ops;
      s.(copies := s.copies[c := s.copies[c].(catchUp := CaughtUp(seen), copy := Apply(s.copies[c].copy, seen))])
    case Receive(c, ops) => Accepting(s, c, ops)
    case Join(c, peer) => WithCopy(s, c, Joined(s.copies[c].copy, peer))
    case Leave(r, peer) => WithCopy(s, s.open[r], Left(s.copies[s.open[r]].copy, peer))
    case Relay(r, i) =>
      var held := s.copies[s.open[r]];
      s.(copies := s.copies[s.open[r] := held.(copy := Apply(held.copy, s.log[i]), delivered := held.delivered + {i})])
    case Flush(c) => StartFlush(s, c)
    case AppendOk(b) => s.(stored := s.stored + Merged(s.savings[b].batch), savings := s.savings - {b})
    case AppendFail(b, savedAnyway) =>
      var c := s.savings[b].copy;
      WithCopy(s, c, PutBack(s.copies[c].copy, s.savings[b].batch)).(
        stored := if savedAnyway then s.stored + Merged(s.savings[b].batch) else s.stored,
        savings := s.savings - {b})
    case DropBegin(r) => Closed(s, r).(drops := s.drops + [Drop(s.open[r], 1, BetweenFlushes)])
    case DropFlush(d) =>
      var drop := s.drops[d];
      StartFlush(s, drop.copy).(drops := s.drops[d := drop.(stage := Flushing(StartedSaving(s, drop.copy)))])
    case DropCheck(d) =>
      var drop := s.drops[d];
      var held := s.copies[drop.copy];
      if held.copy.pending != [] && drop.attempt < RELEASE_SAVE_ATTEMPTS then
        s.(drops := s.drops[d := Drop(drop.copy, drop.attempt + 1, BetweenFlushes)])
      else
        s.(copies := s.copies[drop.copy := held.(copy := Destroyed(held.copy), givenUp := held.givenUp
                                                 || held.copy.pending != [])],
           drops := s.drops[d := drop.(stage := Released)])
    case Discard(r) =>
      var held := s.copies[s.open[r]];
      Closed(s.(copies := s.copies[s.open[r] := held.(copy := Destroyed(held.copy), discarded := true)]), r)
    case EditBegin(r, change) =>
      var t := Opened(s, r);
      t.(edits := t.edits + [Edit(t.open[r], r in s.open, change, Opening)])
    case EditApply(e) =>
      var edit := s.edits[e];
      var t := Accepting(s, edit.copy, edit.change);
      StartFlush(t, edit.copy).(edits := s.edits[e := edit.(stage := Flushed(
        edit.change - s.copies[edit.copy].copy.doc, !s.copies[edit.copy].copy.destroyed, StartedSaving(t, edit.copy)))])
    case EditReturn(e) =>
      var edit := s.edits[e];
      var copy := s.copies[edit.copy].copy;
      var t := s.(edits := s.edits[e := edit.(stage := Returned(edit.stage.added, edit.stage.heard))]);
      if ReleasedAfterEdit(copy, edit.alreadyOpen, IsOpen(s, edit.copy)) then
        Closed(WithCopy(t, edit.copy, Destroyed(copy)), s.copies[edit.copy].replica)
      else t
  }

  /** The steps of edits and saves: they open nothing, close nothing and destroy nothing. */
  predicate Saves(step: Step) {
    step.Receive? || step.Flush? || step.AppendOk? || step.AppendFail? || step.DropFlush? || step.EditApply?
  }

  /** The steps that load a copy, bring it news or seat its editors. */
  predicate Loads(step: Step) {
    || step.LoadAnswer? || step.LoadApply? || step.LoadFail? || step.CatchUpAnswer? || step.CatchUpApply?
    || step.Join? || step.Leave? || step.Relay?
  }

  predicate IsRun(s: State, steps: seq<Step>)
    decreases steps
  {
    steps == [] || (Enabled(s, steps[0]) && IsRun(Next(s, steps[0]), steps[1..]))
  }

  function After(s: State, steps: seq<Step>): State
    requires IsRun(s, steps)
    decreases steps
  {
    if steps == [] then s else After(Next(s, steps[0]), steps[1..])
  }

  // ---- no accepted edit is lost -------------------------------------------------------------

  /** Being appended on behalf of copy `c`. */
  predicate BeingSaved(s: State, c: nat, op: Op) {
    exists b :: b in s.savings && s.savings[b].copy == c && op in Merged(s.savings[b].batch)
  }

  /** Stored, waiting in the copy that accepted it, or in one of that copy's batches being appended. */
  predicate Safe(s: State, c: nat, op: Op)
    requires c < |s.copies|
  {
    op in s.stored || op in Merged(s.copies[c].copy.pending) || BeingSaved(s, c, op)
  }

  predicate AllSafe(s: State) {
    forall c, op | 0 <= c < |s.copies| && op in s.copies[c].accepted :: Safe(s, c, op)
  }

  /**
   * What waits will be tried again, unless the copy was given up or its document deleted; and nothing waits unloaded.
   */
  predicate CopyInv(h: Held) {
    && (h.copy.pending != [] ==> h.copy.flushTimer || h.givenUp || h.discarded)
    && (!h.load.Applied? ==> h.copy.pending == [])
  }

  predicate CopiesInv(s: State) {
    && (forall c | 0 <= c < |s.copies| :: CopyInv(s.copies[c]))
    && (forall b | b in s.savings ::
          b < s.flushes && s.savings[b].copy < |s.copies| && s.copies[s.savings[b].copy].load.Applied?)
    && (forall r | r in s.open :: s.open[r] < |s.copies| && s.copies[s.open[r]].replica == r)
  }

  ghost predicate SavedInv(s: State) { CopiesInv(s) && AllSafe(s) }

  /** `t` is `s` with copy `c` now `h`, and perhaps a replica without its copy; no save has begun or ended. */
  predicate Changed(s: State, t: State, c: nat, h: Held) {
    && c < |s.copies| && t.copies == s.copies[c := h] && h.replica == s.copies[c].replica
    && t.stored == s.stored && t.savings == s.savings && t.flushes == s.flushes
    && (forall r | r in t.open :: r in s.open && t.open[r] == s.open[r])
  }

  /** A change of one copy that keeps its unsaved edits waiting. */
  lemma {:induction false} ChangeKeeps(s: State, t: State, c: nat, h: Held)
    requires SavedInv(s) && Changed(s, t, c, h) && CopyInv(h)
    requires s.copies[c].load.Applied? ==> h.load.Applied?
    requires Merged(s.copies[c].copy.pending) <= Merged(h.copy.pending)
    requires h.accepted <= s.copies[c].accepted + Merged(h.copy.pending)
    ensures SavedInv(t)
  {
    forall k, op | 0 <= k < |t.copies| && op in t.copies[k].accepted ensures Safe(t, k, op) {
      if k != c || op in s.copies[c].accepted {
        SafeStays(s, t, k, op);
      }
    }
  }

  lemma {:induction false} SafeStays(s: State, t: State, c: nat, op: Op)
    requires c < |s.copies| && c < |t.copies| && Safe(s, c, op)
    requires s.stored <= t.stored && s.savings == t.savings
    requires Merged(s.copies[c].copy.pending) <= Merged(t.copies[c].copy.pending)
    ensures Safe(t, c, op)
  {
    if BeingSaved(s, c, op) {
      var b :| b in s.savings && s.savings[b].copy == c && op in Merged(s.savings[b].batch);
      assert b in t.savings && t.savings[b].copy == c;
    }
  }

  /** Only the bookkeeping of drops and edits differs, or which replicas have their copy open. */
  lemma {:induction false} BookkeepingKeeps(s: State, t: State)
    requires SavedInv(s) && t.copies == s.copies && t.stored == s.stored && t.savings == s.savings
    requires t.flushes == s.flushes
    requires forall r | r in t.open :: r in s.open && t.open[r] == s.open[r]
    ensures SavedInv(t)
  {
    forall c, op | 0 <= c < |t.copies| && op in t.copies[c].accepted ensures Safe(t, c, op) {
      SafeStays(s, t, c, op);
    }
  }

  lemma {:induction false} OpenedKeeps(s: State, r: Replica)
    requires SavedInv(s)
    ensures SavedInv(Opened(s, r))
  {
    var t := Opened(s, r);
    forall c, op | 0 <= c < |t.copies| && op in t.copies[c].accepted ensures Safe(t, c, op) {
      assert c < |s.copies| && t.copies[c] == s.copies[c];
      SafeStays(s, t, c, op);
    }
  }

  lemma {:induction false} AcceptingKeeps(s: State, c: nat, ops: Ops)
    requires SavedInv(s) && c < |s.copies| && s.copies[c].load.Applied?
    ensures SavedInv(Accepting(s, c, ops))
  {
    var t := Accepting(s, c, ops);
    AcceptPends(s.copies[c].copy, ops);
    ChangeKeeps(s, t, c, t.copies[c]);
  }

  lemma {:induction false} StartFlushKeeps(s: State, c: nat)
    requires SavedInv(s) && c < |s.copies|
    ensures SavedInv(StartFlush(s, c))
  {
    var t := StartFlush(s, c);
    forall k, op | 0 <= k < |t.copies| && op in t.copies[k].accepted ensures Safe(t, k, op) {
      assert Safe(s, k, op);
      if BeingSaved(s, k, op) {
        var b :| b in s.savings && s.savings[b].copy == k && op in Merged(s.savings[b].batch);
        assert b in t.savings && t.savings[b] == s.savings[b];
      } else if op in Merged(s.copies[k].copy.pending) && k == c {
        assert s.flushes in t.savings && t.savings[s.flushes].copy == k;
      }
    }
  }

  lemma {:induction false} AppendOkKeeps(s: State, b: nat)
    requires SavedInv(s) && Enabled(s, AppendOk(b))
    ensures SavedInv(Next(s, AppendOk(b)))
  {
    var t := Next(s, AppendOk(b));
    forall k, op | 0 <= k < |t.copies| && op in t.copies[k].accepted ensures Safe(t, k, op) {
      assert Safe(s, k, op);
      if BeingSaved(s, k, op) && op !in t.stored {
        var x :| x in s.savings && s.savings[x].copy == k && op in Merged(s.savings[x].batch);
        assert x in t.savings && t.savings[x] == s.savings[x];
      }
    }
  }

  lemma {:induction false} AppendFailKeeps(s: State, b: nat, savedAnyway: bool)
    requires SavedInv(s) && Enabled(s, AppendFail(b, savedAnyway))
    ensures SavedInv(Next(s, AppendFail(b, savedAnyway)))
  {
    var t := Next(s, AppendFail(b, savedAnyway));
    var c, batch := s.savings[b].copy, s.savings[b].batch;
    MergedAppend(batch, s.copies[c].copy.pending);
    forall k, op | 0 <= k < |t.copies| && op in t.copies[k].accepted ensures Safe(t, k, op) {
      assert Safe(s, k, op);
      if BeingSaved(s, k, op) {
        var x :| x in s.savings && s.savings[x].copy == k && op in Merged(s.savings[x].batch);
        assert x != b ==> x in t.savings && t.savings[x] == s.savings[x];
      }
    }
  }

  lemma {:induction false} SavedStep(s: State, step: Step)
    requires SavedInv(s) && Enabled(s, step)
    ensures SavedInv(Next(s, step))
  {
    var t := Next(s, step);
    match step
    case Open(r) => OpenedKeeps(s, r);
    case EditBegin(r, _) =>
      OpenedKeeps(s, r);
      BookkeepingKeeps(Opened(s, r), t);
    case Receive(c, ops) => AcceptingKeeps(s, c, ops);
    case Flush(c) => StartFlushKeeps(s, c);
    case AppendOk(b) => AppendOkKeeps(s, b);
    case AppendFail(b, savedAnyway) => AppendFailKeeps(s, b, savedAnyway);
    case DropBegin(_) => BookkeepingKeeps(s, t);
    case DropFlush(d) =>
      StartFlushKeeps(s, s.drops[d].copy);
      BookkeepingKeeps(StartFlush(s, s.drops[d].copy), t);
    case EditApply(e) =>
      var edit := s.edits[e];
      AcceptingKeeps(s, edit.copy, edit.change);
      StartFlushKeeps(Accepting(s, edit.copy, edit.change), edit.copy);
      BookkeepingKeeps(StartFlush(Accepting(s, edit.copy, edit.change), edit.copy), t);
    case DropCheck(d) => SavedByDropCheck(s, d);
    case EditReturn(e) => SavedByEditReturn(s, e);
    case _ => SavedByOthers(s, step);
  }

  lemma {:induction false} SavedByDropCheck(s: State, d: nat)
    requires SavedInv(s) && Enabled(s, DropCheck(d))
    ensures SavedInv(Next(s, DropCheck(d)))
  {
    var t, c := Next(s, DropCheck(d)), s.drops[d].copy;
    if t.copies == s.copies {
      BookkeepingKeeps(s, t);
    } else {
      ChangeKeeps(s, t, c, t.copies[c]);
    }
  }

  lemma {:induction false} SavedByEditReturn(s: State, e: nat)
    requires SavedInv(s) && Enabled(s, EditReturn(e))
    ensures SavedInv(Next(s, EditReturn(e)))
  {
    var t, c := Next(s, EditReturn(e)), s.edits[e].copy;
    if t.copies == s.copies {
      BookkeepingKeeps(s, t);
    } else {
      ChangeKeeps(s, t, c, t.copies[c]);
    }
  }

  /** The copy a step is about. */
  function Touched(s: State, step: Step): nat
    requires Enabled(s, step)
  {
    match step
    case Leave(r, _) => s.open[r]
    case Relay(r, _) => s.open[r]
    case Discard(r) => s.open[r]
    case LoadAnswer(c) => c
    case LoadApply(c) => c
    case LoadFail(c) => c
    case CatchUpAnswer(c) => c
    case CatchUpApply(c) => c
    case Join(c, _) => c
    case _ => 0
  }

  /** The steps that load a copy, bring it news, seat its editors, or discard it. */
  lemma {:induction false} SavedByOthers(s: State, step: Step)
    requires SavedInv(s) && Enabled(s, step)
    requires step.LoadAnswer? || step.LoadApply? || step.LoadFail? || step.CatchUpAnswer? || step.CatchUpApply?
             || step.Join? || step.Leave? || step.Relay? || step.Discard?
    ensures SavedInv(Next(s, step))
  {
    var t := Next(s, step);
    var c := Touched(s, step);
    ChangeKeeps(s, t, c, t.copies[c]);
  }

  // ---- an opened copy converges --------------------------------------------------------------

  /** What a listening copy knows was accepted somewhere; and what it was brought, it holds. */
  ghost predicate Brought(s: State, h: Held) {
    && (!h.copy.destroyed ==> h.copy.doc <= s.accepted)
    && (h.load.Answered? ==> h.load.ops <= s.accepted)
    && (h.catchUp.Seen? ==> h.catchUp.ops <= s.accepted)
    && (h.catchUp.CaughtUp? ==> h.catchUp.ops <= h.copy.doc)
    && Merged(h.copy.pending) <= s.accepted
    && (forall i | i in h.delivered :: i < |s.log| && s.log[i] <= h.copy.doc)
    && h.openedAt <= |s.log|
    && s.accepted <= h.acceptedBefore + Merged(s.log[h.openedAt..])
  }

  ghost predicate KnownInv(s: State) {
    && (forall c | 0 <= c < |s.copies| :: Brought(s, s.copies[c]))
    && s.stored <= s.accepted
    && (forall b | b in s.savings :: Merged(s.savings[b].batch) <= s.accepted)
    && (forall i | 0 <= i < |s.log| :: s.log[i] <= s.accepted)
  }

  /** Copy `c` is now `h`, and nothing new was accepted. */
  lemma {:induction false} KnownChange(s: State, t: State, c: nat, h: Held)
    requires KnownInv(s) && c < |s.copies| && t.copies == s.copies[c := h]
    requires t.accepted == s.accepted && t.log == s.log && t.stored == s.stored && t.savings == s.savings
    requires Brought(s, h)
    ensures KnownInv(t)
  {
    assert forall k | 0 <= k < |t.copies| :: Brought(t, t.copies[k]) <==> Brought(s, t.copies[k]);
  }

  lemma {:induction false} KnownBookkeeping(s: State, t: State)
    requires KnownInv(s) && t.copies == s.copies
    requires t.accepted == s.accepted && t.log == s.log && t.stored == s.stored && t.savings == s.savings
    ensures KnownInv(t)
  {
    assert forall k | 0 <= k < |t.copies| :: Brought(t, t.copies[k]) <==> Brought(s, t.copies[k]);
  }

  lemma {:induction false} KnownOpened(s: State, r: Replica)
    requires KnownInv(s)
    ensures KnownInv(Opened(s, r))
  {
    var t := Opened(s, r);
    forall k | 0 <= k < |t.copies| ensures Brought(t, t.copies[k]) {
      if k < |s.copies| {
        assert t.copies[k] == s.copies[k] && Brought(s, s.copies[k]);
      }
    }
  }

  lemma {:induction false} BroughtMore(s: State, t: State, h: Held, news: Ops)
    requires Brought(s, h) && t.accepted == s.accepted + news
    requires t.log == if news == {} then s.log else s.log + [news]
    ensures Brought(t, h)
  {
    var since, now := s.log[h.openedAt..], t.log[h.openedAt..];
    if news != {} {
      assert now == since + [news];
      assert now[..|now| - 1] == since;
    }
  }

  lemma {:induction false} KnownAccepting(s: State, c: nat, ops: Ops)
    requires KnownInv(s) && c < |s.copies|
    ensures KnownInv(Accepting(s, c, ops))
  {
    var t, news := Accepting(s, c, ops), News(s.copies[c].copy, ops);
    AcceptPends(s.copies[c].copy, ops);
    forall k | 0 <= k < |t.copies| ensures Brought(t, t.copies[k]) {
      BroughtMore(s, t, s.copies[k], news);
    }
  }

  lemma {:induction false} KnownStartFlush(s: State, c: nat)
    requires KnownInv(s) && c < |s.copies|
    ensures KnownInv(StartFlush(s, c))
  {
    var t := StartFlush(s, c);
    forall k | 0 <= k < |t.copies| ensures Brought(t, t.copies[k]) {
      assert Brought(s, s.copies[k]);
    }
  }

  lemma {:induction false} KnownAppend(s: State, step: Step)
    requires KnownInv(s) && Enabled(s, step) && (step.AppendOk? || step.AppendFail?)
    ensures KnownInv(Next(s, step))
  {
    var t := Next(s, step);
    if step.AppendFail? {
      MergedAppend(s.savings[step.saving].batch, s.copies[s.savings[step.saving].copy].copy.pending);
    }
    forall k | 0 <= k < |t.copies| ensures Brought(t, t.copies[k]) {
      assert Brought(s, s.copies[k]);
    }
  }

  lemma {:induction false} KnownStep(s: State, step: Step)
    requires KnownInv(s) && Enabled(s, step)
    ensures KnownInv(Next(s, step))
  {
    var t := Next(s, step);
    match step
    case Open(r) => KnownOpened(s, r);
    case EditBegin(r, _) =>
      KnownOpened(s, r);
      KnownBookkeeping(Opened(s, r), t);
    case Receive(c, ops) => KnownAccepting(s, c, ops);
    case Flush(c) => KnownStartFlush(s, c);
    case AppendOk(_) => KnownAppend(s, step);
    case AppendFail(_, _) => KnownAppend(s, step);
    case DropBegin(_) => KnownBookkeeping(s, t);
    case DropFlush(d) =>
      KnownStartFlush(s, s.drops[d].copy);
      KnownBookkeeping(StartFlush(s, s.drops[d].copy), t);
    case EditApply(e) =>
      var edit := s.edits[e];
      KnownAccepting(s, edit.copy, edit.change);
      KnownStartFlush(Accepting(s, edit.copy, edit.change), edit.copy);
      KnownBookkeeping(StartFlush(Accepting(s, edit.copy, edit.change), edit.copy), t);
    case DropCheck(d) => KnownReleased(s, step, s.drops[d].copy);
    case EditReturn(e) => KnownReleased(s, step, s.edits[e].copy);
    case _ => KnownOthers(s, step);
  }

  lemma {:induction false} KnownReleased(s: State, step: Step, c: nat)
    requires KnownInv(s) && Enabled(s, step)
    requires (step.DropCheck? && c == s.drops[step.drop].copy) || (step.EditReturn? && c == s.edits[step.edit].copy)
    ensures KnownInv(Next(s, step))
  {
    var t := Next(s, step);
    assert Brought(s, s.copies[c]);
    if t.copies == s.copies {
      KnownBookkeeping(s, t);
    } else {
      KnownChange(s, t, c, t.copies[c]);
    }
  }

  lemma {:induction false} KnownOthers(s: State, step: Step)
    requires KnownInv(s) && Enabled(s, step)
    requires step.LoadAnswer? || step.LoadApply? || step.LoadFail? || step.CatchUpAnswer? || step.CatchUpApply?
             || step.Join? || step.Leave? || step.Relay? || step.Discard?
    ensures KnownInv(Next(s, step))
  {
    var t := Next(s, step);
    var c := Touched(s, step);
    assert Brought(s, s.copies[c]);
    KnownChange(s, t, c, t.copies[c]);
  }

  /** Living, caught up with all that was accepted before it was opened, and brought all that was published since. */
  predicate BroughtEverything(s: State, c: nat)
    requires c < |s.copies|
  {
    var h := s.copies[c];
    && !h.copy.destroyed && h.catchUp.CaughtUp? && h.acceptedBefore <= h.catchUp.ops
    && (forall i | h.openedAt <= i < |s.log| :: i in h.delivered)
  }

  /**
   * An opened copy converges. It missed what was published before it was opened, and loaded before much of it was
   * saved; but once it has looked at storage again, having by then all that was accepted before it opened, and has
   * been brought every update published since, its document is exactly all that was accepted anywhere.
   */
  lemma {:induction false} OpenedCopyConverges(steps: seq<Step>, c: nat)
    requires IsRun(INITIAL, steps) && c < |After(INITIAL, steps).copies|
    requires BroughtEverything(After(INITIAL, steps), c)
    ensures After(INITIAL, steps).copies[c].copy.doc == After(INITIAL, steps).accepted
  {
    KnownAlways(INITIAL, steps);
    var s := After(INITIAL, steps);
    var h := s.copies[c];
    assert Brought(s, h);
    forall op | op in s.accepted ensures op in h.copy.doc {
      if op !in h.acceptedBefore {
        var since := s.log[h.openedAt..];
        var i :| 0 <= i < |since| && op in since[i];
        assert since[i] == s.log[h.openedAt + i];
      }
    }
  }

  /** So two copies that both have hold the same document. */
  lemma {:induction false} CopiesAgree(steps: seq<Step>, c: nat, d: nat)
    requires IsRun(INITIAL, steps) && c < |After(INITIAL, steps).copies| && d < |After(INITIAL, steps).copies|
    requires BroughtEverything(After(INITIAL, steps), c) && BroughtEverything(After(INITIAL, steps), d)
    ensures After(INITIAL, steps).copies[c].copy.doc == After(INITIAL, steps).copies[d].copy.doc
  {
    OpenedCopyConverges(steps, c);
    OpenedCopyConverges(steps, d);
  }

  lemma {:induction false} KnownAlways(s: State, steps: seq<Step>)
    requires KnownInv(s) && IsRun(s, steps)
    ensures KnownInv(After(s, steps))
    decreases steps
  {
    if steps != [] {
      KnownStep(s, steps[0]);
      KnownAlways(Next(s, steps[0]), steps[1..]);
    }
  }

  // ---- a replica's own edits ---------------------------------------------------------------------

  /** What an edit added was accepted by its copy, if the copy listened. */
  predicate EditInv(s: State, edit: Edit) {
    && edit.copy < |s.copies|
    && (edit.stage.Flushed? && edit.stage.heard ==> edit.stage.added <= s.copies[edit.copy].accepted)
    && (edit.stage.Returned? && edit.stage.heard ==> edit.stage.added <= s.copies[edit.copy].accepted)
  }

  predicate EditsInv(s: State) {
    && (forall r | r in s.open :: s.open[r] < |s.copies|)
    && forall e | 0 <= e < |s.edits| :: EditInv(s, s.edits[e])
  }

  /** Copies are never forgotten, nor what they accepted. */
  lemma {:induction false} AcceptedGrows(s: State, step: Step)
    requires Enabled(s, step)
    ensures |s.copies| <= |Next(s, step).copies|
    ensures forall c | 0 <= c < |s.copies| :: s.copies[c].accepted <= Next(s, step).copies[c].accepted
  {
    if Saves(step) {
      AcceptedGrowsBySave(s, step);
    } else if Loads(step) {
      AcceptedGrowsByLoad(s, step);
    } else {
      AcceptedGrowsInTable(s, step);
    }
  }

  lemma {:induction false} AcceptedGrowsBySave(s: State, step: Step)
    requires Enabled(s, step)
    requires Saves(step)
    ensures |s.copies| <= |Next(s, step).copies|
    ensures forall c | 0 <= c < |s.copies| :: s.copies[c].accepted <= Next(s, step).copies[c].accepted
  {
  }

  lemma {:induction false} AcceptedGrowsByLoad(s: State, step: Step)
    requires Enabled(s, step)
    requires Loads(step)
    ensures |s.copies| <= |Next(s, step).copies|
    ensures forall c | 0 <= c < |s.copies| :: s.copies[c].accepted <= Next(s, step).copies[c].accepted
  {
  }

  lemma {:induction false} AcceptedGrowsInTable(s: State, step: Step)
    requires Enabled(s, step)
    requires !Saves(step) && !Loads(step)
    ensures |s.copies| <= |Next(s, step).copies|
    ensures forall c | 0 <= c < |s.copies| :: s.copies[c].accepted <= Next(s, step).copies[c].accepted
  {
  }

  lemma {:induction false} EditsStep(s: State, step: Step)
    requires EditsInv(s) && Enabled(s, step)
    ensures EditsInv(Next(s, step))
  {
    AcceptedGrows(s, step);
    OpenStep(s, step);
    forall e | 0 <= e < |Next(s, step).edits| ensures EditInv(Next(s, step), Next(s, step).edits[e]) {
      EditMoves(s, step, e);
    }
  }

  lemma {:induction false} OpenStep(s: State, step: Step)
    requires Enabled(s, step) && |s.copies| <= |Next(s, step).copies|
    requires forall r | r in s.open :: s.open[r] < |s.copies|
    ensures forall r | r in Next(s, step).open :: Next(s, step).open[r] < |Next(s, step).copies|
  {
  }

  /** An edit is as it was on the same copy, or just moved by this step. */
  lemma {:induction false} EditMoves(s: State, step: Step, e: nat)
    requires EditsInv(s) && Enabled(s, step) && e < |Next(s, step).edits|
    requires |s.copies| <= |Next(s, step).copies|
    requires forall c | 0 <= c < |s.copies| :: s.copies[c].accepted <= Next(s, step).copies[c].accepted
    requires forall r | r in Next(s, step).open :: Next(s, step).open[r] < |Next(s, step).copies|
    ensures EditInv(Next(s, step), Next(s, step).edits[e])
  {
    if Saves(step) {
      EditMovesBySave(s, step, e);
    } else {
      EditMovesInTable(s, step, e);
    }
  }

  lemma {:induction false} EditMovesBySave(s: State, step: Step, e: nat)
    requires EditsInv(s) && Enabled(s, step) && e < |Next(s, step).edits| && Saves(step)
    requires |s.copies| <= |Next(s, step).copies|
    requires forall c | 0 <= c < |s.copies| :: s.copies[c].accepted <= Next(s, step).copies[c].accepted
    requires forall r | r in Next(s, step).open :: Next(s, step).open[r] < |Next(s, step).copies|
    ensures EditInv(Next(s, step), Next(s, step).edits[e])
  {
    if e < |s.edits| {
      assert EditInv(s, s.edits[e]);
    }
  }

  lemma {:induction false} EditMovesInTable(s: State, step: Step, e: nat)
    requires EditsInv(s) && Enabled(s, step) && e < |Next(s, step).edits| && !Saves(step)
    requires |s.copies| <= |Next(s, step).copies|
    requires forall c | 0 <= c < |s.copies| :: s.copies[c].accepted <= Next(s, step).copies[c].accepted
    requires forall r | r in Next(s, step).open :: Next(s, step).open[r] < |Next(s, step).copies|
    ensures EditInv(Next(s, step), Next(s, step).edits[e])
  {
    if e < |s.edits| {
      assert EditInv(s, s.edits[e]);
    }
  }

  ghost predicate Inv(s: State) { SavedInv(s) && EditsInv(s) }

  lemma {:induction false} InvAlways(s: State, steps: seq<Step>)
    requires Inv(s) && IsRun(s, steps)
    ensures Inv(After(s, steps))
    decreases steps
  {
    if steps != [] {
      SavedStep(s, steps[0]);
      EditsStep(s, steps[0]);
      InvAlways(Next(s, steps[0]), steps[1..]);
    }
  }

  /**
   * No accepted edit is lost. After any run on any replicas, each edit a copy accepted is stored, waiting in that copy,
   * or in one of its batches being appended; and what waits has its next save set, unless the copy was given up after
   * its last attempt or the document was deleted.
   */
  lemma {:induction false} NoEditLost(steps: seq<Step>, c: nat, op: Op)
    requires IsRun(INITIAL, steps) && c < |After(INITIAL, steps).copies|
    requires op in After(INITIAL, steps).copies[c].accepted
    ensures var s := After(INITIAL, steps);
            && Safe(s, c, op)
            && (s.copies[c].copy.pending != [] ==>
                s.copies[c].copy.flushTimer || s.copies[c].givenUp || s.copies[c].discarded)
  {
    InvAlways(INITIAL, steps);
    assert CopyInv(After(INITIAL, steps).copies[c]);
  }

  /** So when everything has come to rest, every edit is stored but for those of copies given up or deleted. */
  lemma {:induction false} StoredAtRest(steps: seq<Step>, c: nat, op: Op)
    requires IsRun(INITIAL, steps) && c < |After(INITIAL, steps).copies|
    requires var s := After(INITIAL, steps);
             && s.savings == map[] && !s.copies[c].copy.flushTimer && !s.copies[c].givenUp && !s.copies[c].discarded
             && op in s.copies[c].accepted
    ensures op in After(INITIAL, steps).stored
  {
    NoEditLost(steps, c, op);
  }

  /** `edit` returns only with what it added stored, or still being seen to, if its copy was listening. */
  lemma {:induction false} EditReturnsSafe(steps: seq<Step>, e: nat, op: Op)
    requires IsRun(INITIAL, steps) && e < |After(INITIAL, steps).edits|
    requires var stage := After(INITIAL, steps).edits[e].stage;
             stage.Returned? && stage.heard && op in stage.added
    ensures var s := After(INITIAL, steps); s.edits[e].copy < |s.copies| && Safe(s, s.edits[e].copy, op)
  {
    InvAlways(INITIAL, steps);
    assert EditInv(After(INITIAL, steps), After(INITIAL, steps).edits[e]);
  }

  /**
   * A new operation is accepted, when it is applied, exactly if the copy listens then. `NotesFates` says when it does.
   */
  lemma {:induction false} EditKeptIffHeard(s: State, e: nat, op: Op)
    requires Inv(s) && KnownInv(s) && Enabled(s, EditApply(e))
    requires op in s.edits[e].change && op !in s.accepted
    ensures !s.copies[s.edits[e].copy].copy.destroyed <==> op in Next(s, EditApply(e)).accepted
    ensures s.copies[s.edits[e].copy].copy.destroyed ==> Next(s, EditApply(e)).accepted == s.accepted
  {
    var edit := s.edits[e];
    assert Brought(s, s.copies[edit.copy]);
  }

  // ---- giving up -----------------------------------------------------------------------------------

  /** Only a drop that has made its last attempt gives a copy up. */
  predicate GivenUpInv(s: State) {
    && (forall c | 0 <= c < |s.copies| && s.copies[c].givenUp ::
          exists d :: 0 <= d < |s.drops| && s.drops[d] == Drop(c, RELEASE_SAVE_ATTEMPTS, Released))
    && (forall d | 0 <= d < |s.drops| :: 1 <= s.drops[d].attempt <= RELEASE_SAVE_ATTEMPTS)
  }

  lemma {:induction false} GivenUpStep(s: State, step: Step)
    requires GivenUpInv(s) && Enabled(s, step)
    ensures GivenUpInv(Next(s, step))
  {
    var t := Next(s, step);
    GivenUpOnlyByCheck(s, step);
    DropsOnlyAdvance(s, step);
    forall c | 0 <= c < |t.copies| && t.copies[c].givenUp
      ensures exists d :: 0 <= d < |t.drops| && t.drops[d] == Drop(c, RELEASE_SAVE_ATTEMPTS, Released)
    {
      if c < |s.copies| && s.copies[c].givenUp {
        var d :| 0 <= d < |s.drops| && s.drops[d] == Drop(c, RELEASE_SAVE_ATTEMPTS, Released);
        assert t.drops[d] == s.drops[d];
      } else {
        assert t.drops[step.drop] == Drop(c, RELEASE_SAVE_ATTEMPTS, Released);
      }
    }
  }

  lemma {:induction false} GivenUpOnlyByCheck(s: State, step: Step)
    requires GivenUpInv(s) && Enabled(s, step)
    ensures var t := Next(s, step);
            && |s.copies| <= |t.copies|
            && (forall c | 0 <= c < |t.copies| && t.copies[c].givenUp && (c >= |s.copies| || !s.copies[c].givenUp) ::
                  step.DropCheck? && t.drops[step.drop] == Drop(c, RELEASE_SAVE_ATTEMPTS, Released))
  {
    if !step.DropCheck? {
      NobodyGivenUp(s, step);
    }
  }

  lemma {:induction false} NobodyGivenUp(s: State, step: Step)
    requires Enabled(s, step) && !step.DropCheck?
    ensures var t := Next(s, step);
            && |s.copies| <= |t.copies|
            && (forall c | 0 <= c < |t.copies| :: t.copies[c].givenUp <==> c < |s.copies| && s.copies[c].givenUp)
  {
    if Saves(step) {
      NobodyGivenUpBySave(s, step);
    } else if Loads(step) {
      NobodyGivenUpByLoad(s, step);
    } else {
      NobodyGivenUpInTable(s, step);
    }
  }

  lemma {:induction false} NobodyGivenUpBySave(s: State, step: Step)
    requires Enabled(s, step) && !step.DropCheck?
    requires Saves(step)
    ensures var t := Next(s, step);
            && |s.copies| <= |t.copies|
            && (forall c | 0 <= c < |t.copies| :: t.copies[c].givenUp <==> c < |s.copies| && s.copies[c].givenUp)
  {
  }

  lemma {:induction false} NobodyGivenUpByLoad(s: State, step: Step)
    requires Enabled(s, step) && !step.DropCheck?
    requires Loads(step)
    ensures var t := Next(s, step);
            && |s.copies| <= |t.copies|
            && (forall c | 0 <= c < |t.copies| :: t.copies[c].givenUp <==> c < |s.copies| && s.copies[c].givenUp)
  {
  }

  lemma {:induction false} NobodyGivenUpInTable(s: State, step: Step)
    requires Enabled(s, step) && !step.DropCheck?
    requires !Saves(step) && !Loads(step)
    ensures var t := Next(s, step);
            && |s.copies| <= |t.copies|
            && (forall c | 0 <= c < |t.copies| :: t.copies[c].givenUp <==> c < |s.copies| && s.copies[c].givenUp)
  {
  }

  lemma {:induction false} DropsOnlyAdvance(s: State, step: Step)
    requires GivenUpInv(s) && Enabled(s, step)
    ensures var t := Next(s, step);
            && |s.drops| <= |t.drops|
            && (forall d | 0 <= d < |s.drops| && s.drops[d].stage.Released? :: t.drops[d] == s.drops[d])
            && (forall d | 0 <= d < |t.drops| :: 1 <= t.drops[d].attempt <= RELEASE_SAVE_ATTEMPTS)
  {
    if Saves(step) {
      DropsOnlyAdvanceBySave(s, step);
    } else if Loads(step) {
      DropsOnlyAdvanceByLoad(s, step);
    } else {
      DropsOnlyAdvanceInTable(s, step);
    }
  }

  lemma {:induction false} DropsOnlyAdvanceBySave(s: State, step: Step)
    requires GivenUpInv(s) && Enabled(s, step)
    requires Saves(step)
    ensures var t := Next(s, step);
            && |s.drops| <= |t.drops|
            && (forall d | 0 <= d < |s.drops| && s.drops[d].stage.Released? :: t.drops[d] == s.drops[d])
            && (forall d | 0 <= d < |t.drops| :: 1 <= t.drops[d].attempt <= RELEASE_SAVE_ATTEMPTS)
  {
  }

  lemma {:induction false} DropsOnlyAdvanceByLoad(s: State, step: Step)
    requires GivenUpInv(s) && Enabled(s, step)
    requires Loads(step)
    ensures var t := Next(s, step);
            && |s.drops| <= |t.drops|
            && (forall d | 0 <= d < |s.drops| && s.drops[d].stage.Released? :: t.drops[d] == s.drops[d])
            && (forall d | 0 <= d < |t.drops| :: 1 <= t.drops[d].attempt <= RELEASE_SAVE_ATTEMPTS)
  {
  }

  lemma {:induction false} DropsOnlyAdvanceInTable(s: State, step: Step)
    requires GivenUpInv(s) && Enabled(s, step)
    requires !Saves(step) && !Loads(step)
    ensures var t := Next(s, step);
            && |s.drops| <= |t.drops|
            && (forall d | 0 <= d < |s.drops| && s.drops[d].stage.Released? :: t.drops[d] == s.drops[d])
            && (forall d | 0 <= d < |t.drops| :: 1 <= t.drops[d].attempt <= RELEASE_SAVE_ATTEMPTS)
  {
  }

  /** A copy is given up only by a drop that has failed all its attempts. */
  lemma {:induction false} GivenUpAfterLastAttempt(s: State, steps: seq<Step>)
    requires GivenUpInv(s) && IsRun(s, steps)
    ensures GivenUpInv(After(s, steps))
    decreases steps
  {
    if steps != [] {
      GivenUpStep(s, steps[0]);
      GivenUpAfterLastAttempt(Next(s, steps[0]), steps[1..]);
    }
  }

  // ---- where the claims stop ------------------------------------------------------------------------

  lemma {:induction false} OneStep(s: State, a: Step, rest: seq<Step>)
    requires Enabled(s, a) && IsRun(Next(s, a), rest)
    ensures IsRun(s, [a] + rest) && After(s, [a] + rest) == After(Next(s, a), rest)
  {
    assert ([a] + rest)[1..] == rest;
  }

  lemma {:induction false} RunOn(s: State, xs: seq<Step>, ys: seq<Step>)
    requires IsRun(s, xs) && IsRun(After(s, xs), ys)
    ensures IsRun(s, xs + ys) && After(s, xs + ys) == After(After(s, xs), ys)
    decreases xs
  {
    if xs == [] {
      assert xs + ys == ys;
    } else {
      TailOfAppend(xs, ys);
      RunOn(Next(s, xs[0]), xs[1..], ys);
    }
  }

  lemma {:induction false} TwoSteps(s: State, a: Step, b: Step)
    requires Enabled(s, a) && Enabled(Next(s, a), b)
    ensures IsRun(s, [a, b]) && After(s, [a, b]) == Next(Next(s, a), b)
  {
    OneStep(Next(s, a), b, []);
    assert [b] + [] == [b];
    OneStep(s, a, [b]);
    assert [a] + [b] == [a, b];
  }

  lemma {:induction false} FourSteps(s: State, a: Step, b: Step, c: Step, d: Step)
    requires Enabled(s, a) && Enabled(Next(s, a), b) && Enabled(Next(Next(s, a), b), c)
    requires Enabled(Next(Next(Next(s, a), b), c), d)
    ensures IsRun(s, [a, b, c, d]) && After(s, [a, b, c, d]) == Next(Next(Next(Next(s, a), b), c), d)
  {
    TwoSteps(s, a, b);
    TwoSteps(Next(Next(s, a), b), c, d);
    RunOn(s, [a, b], [c, d]);
    assert [a, b] + [c, d] == [a, b, c, d];
  }

  /** A replica edits a room it does not have open: its copy is loaded, changed, and its save begun. */
  function OpensToEdit(): seq<Step> { [EditBegin("a", {1}), LoadAnswer(0), LoadApply(0), EditApply(0)] }

  const EDITING := State(
    map["a" := 0], [Held("a", Copy({1}, [], false, false, {}), Applied, Due, false, false, {1}, 0, {}, {})],
    {}, map[0 := Saving(0, [{1}])], 1, [], [Edit(0, false, {1}, Flushed({1}, true, Some(0)))], {1}, [{1}])

  lemma {:induction false} EditingIsReached()
    ensures IsRun(INITIAL, OpensToEdit()) && After(INITIAL, OpensToEdit()) == EDITING
  {
    var s := EditIsLoaded();
    EditingApplied(s);
    FourSteps(INITIAL, EditBegin("a", {1}), LoadAnswer(0), LoadApply(0), EditApply(0));
  }

  lemma {:induction false} EditIsLoaded() returns (s: State)
    ensures Enabled(INITIAL, EditBegin("a", {1})) && Enabled(Next(INITIAL, EditBegin("a", {1})), LoadAnswer(0))
    ensures var t := Next(Next(INITIAL, EditBegin("a", {1})), LoadAnswer(0));
            Enabled(t, LoadApply(0)) && s == Next(t, LoadApply(0))
    ensures s
              == State(map["a" := 0],
                       [Held("a", Copy({}, [], false, false, {}), Applied, Due, false, false, {}, 0, {}, {})],
                       {}, map[], 0, [], [Edit(0, false, {1}, Opening)], {}, [])
  {
    var s1 := Next(INITIAL, EditBegin("a", {1}));
    assert s1.copies == [Held("a", NEW_COPY, Asked, Due, false, false, {}, 0, {}, {})];
    var s2 := Next(s1, LoadAnswer(0));
    assert s2.copies == [Held("a", NEW_COPY, Answered({}), Due, false, false, {}, 0, {}, {})];
    s := Next(s2, LoadApply(0));
    assert s.copies[0].copy.doc == {};
  }

  lemma {:induction false} EditingApplied(s: State)
    requires s
               == State(map["a" := 0],
                        [Held("a", Copy({}, [], false, false, {}), Applied, Due, false, false, {}, 0, {}, {})],
                        {}, map[], 0, [], [Edit(0, false, {1}, Opening)], {}, [])
    ensures Enabled(s, EditApply(0)) && Next(s, EditApply(0)) == EDITING
  {
    var t := Accepting(s, 0, {1});
    assert News(s.copies[0].copy, {1}) == {1};
    assert t.copies[0].copy.doc == {1} && t.copies[0].accepted == {1} && t.accepted == {1};
    assert t.copies[0].copy.pending == [{1}];
    assert t.copies == [Held("a", Copy({1}, [{1}], true, false, {}), Applied, Due, false, false, {1}, 0, {}, {})];
    var u := StartFlush(t, 0);
    assert u.copies == EDITING.copies && u.savings == EDITING.savings;
  }

  /**
   * A second edit begins, and waits; the first is saved and, having opened the copy alone, releases it; only then is
   * the second applied.
   */
  function AppliedTooLate(): seq<Step> {
    [EditBegin("a", {2}), AppendOk(0)] + [EditReturn(0), EditApply(1)] + [EditReturn(1)]
  }

  /**
   * An edit can return with its change nowhere: begun while another edit's copy was still open, and applied just after
   * that one released it. `NotesFates.EditLostIff` says exactly when.
   */
  lemma {:induction false} EditOnReleasedCopyIsLost()
    ensures IsRun(INITIAL, OpensToEdit() + AppliedTooLate())
    ensures var s := After(INITIAL, OpensToEdit() + AppliedTooLate());
            && |s.edits| == 2 && s.edits[1].stage == Returned({2}, false)
            && 2 !in s.accepted && 2 !in s.stored && s.savings == map[]
  {
    EditingIsReached();
    var s1 := FirstEditSaved();
    var s2 := SecondEditApplied(s1);
    var s3 := Next(s2, EditReturn(1));
    OneStep(s2, EditReturn(1), []);
    assert [EditReturn(1)] + [] == [EditReturn(1)];
    RunOn(EDITING, [EditBegin("a", {2}), AppendOk(0)], [EditReturn(0), EditApply(1)]);
    RunOn(EDITING, [EditBegin("a", {2}), AppendOk(0)] + [EditReturn(0), EditApply(1)], [EditReturn(1)]);
    RunOn(INITIAL, OpensToEdit(), AppliedTooLate());
  }

  lemma {:induction false} FirstEditSaved() returns (s: State)
    ensures IsRun(EDITING, [EditBegin("a", {2}), AppendOk(0)])
    ensures s == After(EDITING, [EditBegin("a", {2}), AppendOk(0)])
    ensures s.savings == map[] && s.stored == {1} && s.accepted == {1}
    ensures s.copies == EDITING.copies && s.open == EDITING.open
    ensures s.edits == [EDITING.edits[0], Edit(0, true, {2}, Opening)]
  {
    TwoSteps(EDITING, EditBegin("a", {2}), AppendOk(0));
    s := Next(Next(EDITING, EditBegin("a", {2})), AppendOk(0));
    assert Merged([{1}]) == {1} by { assert [{1}][0] == {1}; }
  }

  lemma {:induction false} SecondEditApplied(s: State) returns (t: State)
    requires s.savings == map[] && s.stored == {1} && s.accepted == {1}
    requires s.copies == EDITING.copies && s.open == EDITING.open
    requires s.edits == [EDITING.edits[0], Edit(0, true, {2}, Opening)]
    ensures IsRun(s, [EditReturn(0), EditApply(1)]) && t == After(s, [EditReturn(0), EditApply(1)])
    ensures t.savings == map[] && t.stored == {1} && t.accepted == {1} && |t.copies| == 1
    ensures |t.edits| == 2 && t.edits[1] == Edit(0, true, {2}, Flushed({2}, false, None))
  {
    var u := Next(s, EditReturn(0));
    assert u.copies[0].copy == Copy({1}, [], false, true, {}) && u.copies[0].load.Applied? && |u.copies| == 1;
    assert u.edits == [Edit(0, false, {1}, Returned({1}, true)), Edit(0, true, {2}, Opening)];
    TwoSteps(s, EditReturn(0), EditApply(1));
    t := Next(u, EditApply(1));
    assert {2} - {1} == {2};
  }

  /**
   * A load that fails after its replica let the copy go takes the newer copy out of the replica's table: that copy
   * lives on, saves what its editors send, but is brought nothing more. `NotesFates.LoadFailOrphansIff` says exactly
   * when.
   */
  lemma {:induction false} FailedLoadOrphansNewerCopy(r: Replica)
    ensures var steps := [Open(r), DropBegin(r), Open(r), LoadFail(0)];
            && IsRun(INITIAL, steps)
            && var s := After(INITIAL, steps);
            && |s.copies| == 2 && !s.copies[1].copy.destroyed && s.copies[1].load.Asked? && r !in s.open
  {
    FourSteps(INITIAL, Open(r), DropBegin(r), Open(r), LoadFail(0));
  }
}
