/**
 * One document's rows in the database (gateway/src/db/roomDocs.ts): a snapshot, and a log of batches since. Appends
 * take their number when they insert and become visible when they commit, in any order; compaction is a transaction
 * of several statements, one at a time. Every statement is one step and all transactions interleave.
 */
module NotesStorage {
  import opened NotesCopy
  import opened Options
  import opened Sequences

  datatype Row = Row(data: Ops, visible: bool)

  /** What the transaction holding the compaction lock has read so far. */
  datatype Compaction = Locked | RowsRead(read: map<nat, Ops>)
      | SnapshotRead(read: map<nat, Ops>, snapshot: Option<Ops>)

  /** `committed` is all that was ever committed by an append. */
  datatype Tables = Tables(rows: map<nat, Row>, nextSeq: nat, snapshot: Option<Ops>, compactedSeq: nat,
                           compaction: Option<Compaction>, committed: Ops)

  const EMPTY := Tables(map[], 0, None, 0, None, {})

  datatype Step =
    | Insert(data: Ops)
    | Commit(seqNo: nat)
    | RollBack(seqNo: nat)
    | TryCompact
    | ReadRows
    | ReadSnapshot
    | CommitCompaction
    | AbortCompaction

  /** The rows other transactions can see. */
  function VisibleOf(rows: map<nat, Row>): map<nat, Ops> { map q | q in rows && rows[q].visible :: rows[q].data }
  function Visible(t: Tables): map<nat, Ops> { VisibleOf(t.rows) }

  function Union(rows: map<nat, Ops>): (all: Ops)
    ensures forall x :: x in all <==> exists q :: q in rows && x in rows[q]
  {
    set q, x | q in rows && x in rows[q] :: x
  }

  function SnapshotOps(snapshot: Option<Ops>): Ops { if snapshot.Some? then snapshot.value else {} }

  /** What a load returns, merged: the snapshot and every visible row, in one statement. */
  function Contents(t: Tables): Ops { SnapshotOps(t.snapshot) + Union(Visible(t)) }

  function Highest(rows: map<nat, Ops>): (q: nat)
    requires rows != map[]
    ensures q in rows && forall p | p in rows :: p <= q
  {
    HasHighest(rows.Keys);
    var q :| q in rows && forall p | p in rows :: p <= q;
    q
  }

  lemma {:induction false} HasHighest(seqs: set<nat>)
    requires seqs != {}
    ensures exists q :: q in seqs && forall p | p in seqs :: p <= q
    decreases |seqs|
  {
    var q :| q in seqs;
    if seqs - {q} != {} {
      HasHighest(seqs - {q});
      var r :| r in seqs - {q} && forall p | p in seqs - {q} :: p <= r;
      assert forall p | p in seqs :: p == q || p in seqs - {q};
      assert r in seqs && forall p | p in seqs :: p <= if r < q then q else r;
    } else {
      assert seqs == {q};
    }
  }

  predicate Enabled(t: Tables, step: Step) {
    match step
    case Insert(_) => true
    case Commit(q) => q in t.rows && !t.rows[q].visible
    case RollBack(q) => q in t.rows && !t.rows[q].visible
    case TryCompact => true
    case ReadRows => t.compaction == Some(Locked)
    case ReadSnapshot => t.compaction.Some? && t.compaction.value.RowsRead?
    case CommitCompaction => t.compaction.Some? && t.compaction.value.SnapshotRead? && t.compaction.value.read != map[]
    case AbortCompaction => t.compaction.Some?
  }

  function Next(t: Tables, step: Step): Tables
    requires Enabled(t, step)
  {
    match step
    case Insert(data) => t.(rows := t.rows[t.nextSeq := Row(data, false)], nextSeq := t.nextSeq + 1)
    case Commit(q) => t.(rows := t.rows[q := t.rows[q].(visible := true)], committed := t.committed + t.rows[q].data)
    case RollBack(q) => t.(rows := t.rows - {q})
    case TryCompact => if t.compaction.Some? then t else t.(compaction := Some(Locked))
    case ReadRows =>
      var read := Visible(t);
      t.(compaction := if read == map[] then None else Some(RowsRead(read)))
    case ReadSnapshot => t.(compaction := Some(SnapshotRead(t.compaction.value.read, t.snapshot)))
    case CommitCompaction => Compacted(t, t.compaction.value.read.Keys)
    case AbortCompaction => t.(compaction := None)
  }

  /** The merged parts become the snapshot, and these rows go. */
  function Compacted(t: Tables, deleted: set<nat>): Tables
    requires Enabled(t, CommitCompaction)
  {
    var read := t.compaction.value.read;
    t.(snapshot := Some(SnapshotOps(t.compaction.value.snapshot) + Union(read)),
       compactedSeq := Highest(read),
       rows := t.rows - deleted,
       compaction := None)
  }

  predicate IsRun(t: Tables, steps: seq<Step>)
    decreases steps
  {
    steps == [] || (Enabled(t, steps[0]) && IsRun(Next(t, steps[0]), steps[1..]))
  }

  function After(t: Tables, steps: seq<Step>): Tables
    requires IsRun(t, steps)
    decreases steps
  {
    if steps == [] then t else After(Next(t, steps[0]), steps[1..])
  }

  /** What the compacting transaction has read is still so. */
  predicate StillSo(t: Tables, read: map<nat, Ops>) {
    forall q | q in read :: q in t.rows && t.rows[q] == Row(read[q], true)
  }

  ghost predicate Inv(t: Tables) {
    && Contents(t) == t.committed
    && (forall q | q in t.rows :: q < t.nextSeq)
    && match t.compaction
       case None => true
       case Some(Locked) => true
       case Some(RowsRead(read)) => StillSo(t, read)
       case Some(SnapshotRead(read, snapshot)) => StillSo(t, read) && snapshot == t.snapshot
  }

  lemma {:induction false} ContentsGrow(t: Tables, u: Tables, data: Ops)
    requires u.snapshot == t.snapshot
    requires forall x :: x in Union(Visible(u)) <==> x in Union(Visible(t)) || x in data
    ensures Contents(u) == Contents(t) + data
  {
    assert forall x :: x in Contents(u) <==> x in Contents(t) + data;
  }

  lemma {:induction false} CommitShows(t: Tables, q: nat)
    requires Enabled(t, Commit(q))
    ensures Contents(Next(t, Commit(q))) == Contents(t) + t.rows[q].data
  {
    var u, data := Next(t, Commit(q)), t.rows[q].data;
    forall x ensures x in Union(Visible(u)) <==> x in Union(Visible(t)) || x in data {
      if x in Union(Visible(t)) {
        var p :| p in Visible(t) && x in Visible(t)[p];
        assert p in Visible(u) && Visible(u)[p] == Visible(t)[p];
      }
      if x in data {
        assert q in Visible(u) && x in Visible(u)[q];
      }
      if x in Union(Visible(u)) {
        var p :| p in Visible(u) && x in Visible(u)[p];
        assert p != q ==> p in Visible(t) && Visible(t)[p] == Visible(u)[p];
      }
    }
    ContentsGrow(t, u, data);
  }

  /** Steps that show and hide nothing. */
  lemma {:induction false} SameVisible(t: Tables, step: Step)
    requires Inv(t) && Enabled(t, step) && !step.Commit? && !step.CommitCompaction?
    ensures Visible(Next(t, step)) == Visible(t) && Next(t, step).snapshot == t.snapshot
  {
  }

  /** Deleting exactly the merged rows loses nothing: what leaves the log is in the snapshot. */
  lemma {:induction false} CompactionKeeps(t: Tables)
    requires Inv(t) && Enabled(t, CommitCompaction)
    ensures Contents(Next(t, CommitCompaction)) == Contents(t)
  {
    var u, read := Next(t, CommitCompaction), t.compaction.value.read;
    forall x ensures x in Contents(u) <==> x in Contents(t) {
      if x in Union(Visible(t)) {
        var q :| q in Visible(t) && x in Visible(t)[q];
        assert q in read ==> x in read[q];
        assert q !in read ==> q in Visible(u) && x in Visible(u)[q];
      }
      if x in Union(read) {
        var q :| q in read && x in read[q];
        assert q in Visible(t) && x in Visible(t)[q];
      }
      if x in Union(Visible(u)) {
        var q :| q in Visible(u) && x in Visible(u)[q];
        assert q in Visible(t) && x in Visible(t)[q];
      }
    }
  }

  lemma {:induction false} InvStep(t: Tables, step: Step)
    requires Inv(t) && Enabled(t, step)
    ensures Inv(Next(t, step))
  {
    match step
    case Commit(q) => CommitShows(t, q);
    case CommitCompaction => CompactionKeeps(t);
    case _ => SameVisible(t, step);
  }

  lemma {:induction false} InvAlways(t: Tables, steps: seq<Step>)
    requires Inv(t) && IsRun(t, steps)
    ensures Inv(After(t, steps))
    decreases steps
  {
    if steps != [] {
      InvStep(t, steps[0]);
      InvAlways(Next(t, steps[0]), steps[1..]);
    }
  }

  /** However appends and compactions interleave, a load returns exactly what was ever committed. */
  lemma {:induction false} LoadsAllCommitted(steps: seq<Step>)
    requires IsRun(EMPTY, steps)
    ensures Contents(After(EMPTY, steps)) == After(EMPTY, steps).committed
  {
    InvAlways(EMPTY, steps);
  }

  /** What compacting leaves in the log: the batches committed since it read it, whatever their numbers. */
  lemma {:induction false} LogAfterCompaction(t: Tables)
    requires Enabled(t, CommitCompaction)
    ensures Visible(Next(t, CommitCompaction)) == Visible(t) - t.compaction.value.read.Keys
  {
  }

  /** A batch whose append was rolled back is never loaded: its number is not used again. */
  lemma {:induction false} RolledBackIsGone(t: Tables, q: nat, steps: seq<Step>)
    requires Inv(t) && Enabled(t, RollBack(q)) && IsRun(Next(t, RollBack(q)), steps)
    ensures q !in After(Next(t, RollBack(q)), steps).rows
  {
    NumberStaysOut(Next(t, RollBack(q)), steps, q);
  }

  lemma {:induction false} NumberStaysOut(t: Tables, steps: seq<Step>, q: nat)
    requires IsRun(t, steps) && q < t.nextSeq && q !in t.rows
    ensures q !in After(t, steps).rows
    decreases steps
  {
    if steps != [] {
      NumberStaysOut(Next(t, steps[0]), steps[1..], q);
    }
  }

  /** The snapshot says up to which number it goes: the greatest it was made of, whatever is still missing below. */
  lemma {:induction false} WatermarkIsGreatestRead(t: Tables)
    requires Enabled(t, CommitCompaction)
    ensures var q := Next(t, CommitCompaction).compactedSeq;
            q in t.compaction.value.read && forall p | p in t.compaction.value.read :: p <= q
  {
  }

  /** The numbers whose batches these steps commit. */
  function CommittedIn(steps: seq<Step>): set<nat> {
    if steps == [] then {} else (if steps[0].Commit? then {steps[0].seqNo} else {}) + CommittedIn(steps[1..])
  }

  /** The steps of others while a compaction is under way, and its own look at the snapshot. */
  predicate KeepsReading(step: Step) { !step.ReadRows? && !step.CommitCompaction? && !step.AbortCompaction? }

  function ReadBy(t: Tables): map<nat, Ops> {
    match t.compaction
    case Some(RowsRead(read)) => read
    case Some(SnapshotRead(read, _)) => read
    case _ => map[]
  }

  lemma {:induction false} LogGrowsBy(t: Tables, steps: seq<Step>)
    requires Inv(t) && IsRun(t, steps) && (forall i | 0 <= i < |steps| :: KeepsReading(steps[i]))
    ensures ReadBy(After(t, steps)) == ReadBy(t)
    ensures Visible(After(t, steps)).Keys == Visible(t).Keys + CommittedIn(steps)
    ensures Visible(t).Keys !! CommittedIn(steps)
    decreases steps
  {
    if steps != [] {
      LogGrowsByStep(t, steps[0]);
      InvStep(t, steps[0]);
      LogGrowsBy(Next(t, steps[0]), steps[1..]);
    }
  }

  lemma {:induction false} LogGrowsByStep(t: Tables, step: Step)
    requires Inv(t) && Enabled(t, step) && KeepsReading(step)
    ensures ReadBy(Next(t, step)) == ReadBy(t)
    ensures Visible(Next(t, step)).Keys == Visible(t).Keys + (if step.Commit? then {step.seqNo} else {})
    ensures step.Commit? ==> step.seqNo !in Visible(t)
  {
    if !step.Commit? {
      SameVisible(t, step);
    }
  }

  /**
   * A compaction leaves in the log exactly the batches committed between its reading of the log and its own commit,
   * however many and whatever their numbers.
   */
  lemma {:induction false} CompactionLeavesLater(before: seq<Step>, since: seq<Step>)
    requires IsRun(EMPTY, before) && Enabled(After(EMPTY, before), ReadRows)
    requires IsRun(Next(After(EMPTY, before), ReadRows), since)
    requires (forall i | 0 <= i < |since| :: KeepsReading(since[i]))
    requires Enabled(After(Next(After(EMPTY, before), ReadRows), since), CommitCompaction)
    ensures Visible(Next(After(Next(After(EMPTY, before), ReadRows), since), CommitCompaction)).Keys
              == CommittedIn(since)
  {
    InvAlways(EMPTY, before);
    var t := After(EMPTY, before);
    InvStep(t, ReadRows);
    var read := Next(t, ReadRows);
    SameVisible(t, ReadRows);
    LogGrowsBy(read, since);
    LogAfterCompaction(After(read, since));
  }

  // ---- why not by range -------------------------------------------------------------------------

  /** Deleting every row up to the highest one merged instead. */
  function CompactedByRange(t: Tables): Tables
    requires Enabled(t, CommitCompaction)
  {
    Compacted(t, set q | q in t.rows && q <= Highest(t.compaction.value.read))
  }

  /** Inserted first, committed last: the first batch takes the lower number, and the log is read in between. */
  function LateCommit(first: Ops, second: Ops): seq<Step> {
    [Insert(first), Insert(second), Commit(1), TryCompact, ReadRows, ReadSnapshot, Commit(0)]
  }

  lemma {:induction false} OneStep(t: Tables, a: Step, rest: seq<Step>)
    requires Enabled(t, a) && IsRun(Next(t, a), rest)
    ensures IsRun(t, [a] + rest) && After(t, [a] + rest) == After(Next(t, a), rest)
  {
    assert ([a] + rest)[1..] == rest;
  }

  /** Deleting by range would then lose the first batch; deleting the rows read keeps both. */
  lemma {:induction false} RangeWouldLose(first: Ops, second: Ops)
    requires first !! second && first != {}
    ensures IsRun(EMPTY, LateCommit(first, second))
    ensures var t := After(EMPTY, LateCommit(first, second));
            && Enabled(t, CommitCompaction)
            && first <= t.committed && first !! Contents(CompactedByRange(t))
            && first <= Contents(Next(t, CommitCompaction))
  {
    var read := map[1 := second];
    assert 1 in read;
    var t5 := BothInserted(first, second);
    var t6 := t5.(compaction := Some(SnapshotRead(read, None)));
    var t7 := Next(t6, Commit(0));
    OneStep(t6, Commit(0), []);
    OneStep(t5, ReadSnapshot, [Commit(0)]);
    RunOn(EMPTY, [Insert(first), Insert(second), Commit(1), TryCompact, ReadRows], [ReadSnapshot, Commit(0)]);
    assert [ReadSnapshot] + [Commit(0)] == [ReadSnapshot, Commit(0)];
    assert [Insert(first), Insert(second), Commit(1), TryCompact, ReadRows] + [ReadSnapshot, Commit(0)]
             == LateCommit(first, second);
    assert CompactedByRange(t7).rows == map[];
    assert Union(read) == second;
    assert Contents(CompactedByRange(t7)) == second;
    CommitShows(t6, 0);
    InvAlways(EMPTY, LateCommit(first, second));
    CompactionKeeps(t7);
  }

  lemma {:induction false} BothInserted(first: Ops, second: Ops) returns (t: Tables)
    ensures var steps := [Insert(first), Insert(second), Commit(1), TryCompact, ReadRows];
            IsRun(EMPTY, steps) && t == After(EMPTY, steps)
    ensures t.rows == map[0 := Row(first, false), 1 := Row(second, true)] && t.snapshot == None
    ensures t.compaction == Some(RowsRead(map[1 := second]))
  {
    var t1 := Next(EMPTY, Insert(first));
    var t2 := Next(t1, Insert(second));
    var t3 := Next(t2, Commit(1));
    assert t3.rows == map[0 := Row(first, false), 1 := Row(second, true)];
    var t4 := Next(t3, TryCompact);
    assert Visible(t4) == map[1 := second];
    assert 1 in map[1 := second];
    t := Next(t4, ReadRows);
    OneStep(t4, ReadRows, []);
    assert [ReadRows] + [] == [ReadRows];
    OneStep(t3, TryCompact, [ReadRows]);
    assert [TryCompact] + [ReadRows] == [TryCompact, ReadRows];
    OneStep(t2, Commit(1), [TryCompact, ReadRows]);
    assert [Commit(1)] + [TryCompact, ReadRows] == [Commit(1), TryCompact, ReadRows];
    OneStep(t1, Insert(second), [Commit(1), TryCompact, ReadRows]);
    assert [Insert(second)] + [Commit(1), TryCompact, ReadRows] == [Insert(second), Commit(1), TryCompact, ReadRows];
    OneStep(EMPTY, Insert(first), [Insert(second), Commit(1), TryCompact, ReadRows]);
    assert [Insert(first)] + [Insert(second), Commit(1), TryCompact, ReadRows]
             == [Insert(first), Insert(second), Commit(1), TryCompact, ReadRows];
  }

  lemma {:induction false} RunOn(t: Tables, xs: seq<Step>, ys: seq<Step>)
    requires IsRun(t, xs) && IsRun(After(t, xs), ys)
    ensures IsRun(t, xs + ys) && After(t, xs + ys) == After(After(t, xs), ys)
    decreases xs
  {
    if xs == [] {
      assert xs + ys == ys;
    } else {
      TailOfAppend(xs, ys);
      RunOn(Next(t, xs[0]), xs[1..], ys);
    }
  }

  // ---- the tables themselves ----------------------------------------------------------------------

  /** The tables, changed statement by statement; `AsTables` is what the steps above say of them. */
  class RoomDocTables {
    var rows: map<nat, Row>
    var nextSeq: nat
    var snapshot: Option<Ops>
    var compactedSeq: nat
    var compaction: Option<Compaction>
    ghost var committed: Ops

    ghost function AsTables(): Tables
      reads this
    {
      Tables(rows, nextSeq, snapshot, compactedSeq, compaction, committed)
    }

    constructor ()
      ensures AsTables() == EMPTY
    {
      rows, nextSeq, snapshot, compactedSeq, compaction, committed := map[], 0, None, 0, None, {};
    }

    /** Snapshot, if any, then every visible update in order of number. */
    method Load() returns (parts: seq<Ops>)
      requires Inv(AsTables())
      ensures Merged(parts) == Contents(AsTables()) == committed
    {
      parts := if snapshot.Some? then [snapshot.value] else [];
      ghost var visible := VisibleOf(rows);
      for q := 0 to nextSeq
        invariant Merged(parts) == SnapshotOps(snapshot) + Union(Below(visible, q))
      {
        if q in rows && rows[q].visible {
          OneMoreRow(parts, visible, q);
          parts := parts + [rows[q].data];
        } else {
          assert Below(visible, q + 1) == Below(visible, q);
        }
      }
      AllBelow(AsTables());
    }

    /** Inserts one merged batch; `pending` is how many updates then await compaction, with this one. */
    method Append(data: Ops) returns (seqNo: nat, pending: nat)
      modifies `rows, `nextSeq
      ensures AsTables() == Next(old(AsTables()), Insert(data)) && seqNo == old(nextSeq)
      ensures pending == |Visible(old(AsTables()))| + 1
    {
      pending := |VisibleOf(rows)| + 1;
      seqNo := nextSeq;
      rows := rows[nextSeq := Row(data, false)];
      nextSeq := nextSeq + 1;
    }

    method CommitAppend(seqNo: nat)
      requires Enabled(AsTables(), Commit(seqNo))
      modifies `rows, `committed
      ensures AsTables() == Next(old(AsTables()), Commit(seqNo))
    {
      committed := committed + rows[seqNo].data;
      rows := rows[seqNo := rows[seqNo].(visible := true)];
    }

    /** Takes the lock if it is free; whoever finds it taken just skips. */
    method TryCompact() returns (ok: bool)
      modifies `compaction
      ensures ok == old(compaction).None? && AsTables() == Next(old(AsTables()), Step.TryCompact)
    {
      ok := compaction.None?;
      if ok {
        compaction := Some(Locked);
      }
    }

    /** The rows to fold; with none the transaction ends here. */
    method ReadRows() returns (found: bool)
      requires Enabled(AsTables(), Step.ReadRows)
      modifies `compaction
      ensures AsTables() == Next(old(AsTables()), Step.ReadRows) && found == compaction.Some?
    {
      var read := VisibleOf(rows);
      found := read != map[];
      compaction := if found then Some(RowsRead(read)) else None;
    }

    method ReadSnapshot()
      requires Enabled(AsTables(), Step.ReadSnapshot)
      modifies `compaction
      ensures AsTables() == Next(old(AsTables()), Step.ReadSnapshot)
    {
      compaction := Some(SnapshotRead(compaction.value.read, snapshot));
    }

    /** Writes the merged snapshot and deletes exactly the rows merged into it. */
    method CommitCompaction()
      requires Enabled(AsTables(), Step.CommitCompaction)
      modifies `rows, `snapshot, `compactedSeq, `compaction
      ensures AsTables() == Next(old(AsTables()), Step.CommitCompaction)
    {
      var read := compaction.value.read;
      snapshot := Some(SnapshotOps(compaction.value.snapshot) + Union(read));
      compactedSeq := Highest(read);
      rows := rows - read.Keys;
      compaction := None;
    }
  }

  function Below(rows: map<nat, Ops>, n: nat): map<nat, Ops> { map q | q in rows && q < n :: rows[q] }

  lemma {:induction false} AllBelow(t: Tables)
    requires Inv(t)
    ensures Below(Visible(t), t.nextSeq) == Visible(t)
  {
  }

  lemma {:induction false} OneMoreRow(parts: seq<Ops>, rows: map<nat, Ops>, q: nat)
    requires q in rows
    ensures Merged(parts + [rows[q]]) == Merged(parts) + rows[q]
    ensures Union(Below(rows, q + 1)) == Union(Below(rows, q)) + rows[q]
  {
    var longer := parts + [rows[q]];
    assert longer[..|longer| - 1] == parts;
    var below, upTo := Below(rows, q), Below(rows, q + 1);
    forall x ensures x in Union(upTo) <==> x in Union(below) || x in rows[q] {
      if x in rows[q] { assert q in upTo; }
      if x in Union(below) {
        var p :| p in below && x in below[p];
        assert p in upTo && upTo[p] == below[p];
      }
      if x in Union(upTo) {
        var p :| p in upTo && x in upTo[p];
        assert p != q ==> p in below && below[p] == upTo[p];
      }
    }
  }
}
