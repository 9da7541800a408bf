/**
 * A replica's copy of one notes document (`RoomDoc` and the per-copy half of `RoomDocHub` in
 * gateway/src/docs/roomDocs.ts), as values. A document is the set of operations merged into it, so merging is union:
 * commutative and idempotent, which is all the hub relies on. Each function is one stretch between two awaits.
 */
module NotesCopy {
  type Op = int
  type Ops = set<Op>
  type Peer = string

  /** How often the final save is tried when a copy is released. */
  const RELEASE_SAVE_ATTEMPTS := 3

  /** What several updates merge to. */
  function Merged(updates: seq<Ops>): (all: Ops)
    ensures forall x :: x in all <==> exists i :: 0 <= i < |updates| && x in updates[i]
    decreases |updates|
  {
    if updates == [] then {} else
      var rest := Merged(updates[..|updates| - 1]);
      rest + updates[|updates| - 1]
  }

  lemma {:induction false} MergedAppend(a: seq<Ops>, b: seq<Ops>)
    ensures Merged(a + b) == Merged(a) + Merged(b)
  {
    forall x ensures x in Merged(a + b) <==> x in Merged(a) || x in Merged(b) {
      if x in Merged(a) {
        var i :| 0 <= i < |a| && x in a[i];
        assert (a + b)[i] == a[i];
      }
      if x in Merged(b) {
        var i :| 0 <= i < |b| && x in b[i];
        assert (a + b)[|a| + i] == b[i];
      }
      if x in Merged(a + b) {
        var i :| 0 <= i < |a + b| && x in (a + b)[i];
        assert i < |a| ==> x in a[i];
        assert i >= |a| ==> x in b[i - |a|];
      }
    }
  }

  /** `destroyed` copies have lost their listener: what is applied to them is neither saved nor published. */
  datatype Copy = Copy(doc: Ops, pending: seq<Ops>, flushTimer: bool, destroyed: bool, peers: set<Peer>)

  const NEW_COPY := Copy({}, [], false, false, {})

  /** What applying `ops` here changes, and the listener therefore hears of. */
  function News(c: Copy, ops: Ops): Ops { if c.destroyed then {} else ops - c.doc }

  /** An edit made at this replica: applied, queued for saving, and `News` is published. */
  function Accept(c: Copy, ops: Ops): Copy {
    var news := News(c, ops);
    if news == {} then c.(doc := c.doc + ops)
    else c.(doc := c.doc + ops, pending := c.pending + [news], flushTimer := true)
  }

  lemma {:induction false} AcceptPends(c: Copy, ops: Ops)
    ensures Merged(Accept(c, ops).pending) == Merged(c.pending) + News(c, ops)
  {
    var longer := c.pending + [News(c, ops)];
    assert longer[..|longer| - 1] == c.pending;
  }

  /** What another replica published, or storage held. */
  function Apply(c: Copy, ops: Ops): Copy { c.(doc := c.doc + ops) }

  /** A flush takes all that is pending. */
  function Taken(c: Copy): Copy { c.(pending := [], flushTimer := false) }

  /** Its save failed. */
  function PutBack(c: Copy, batch: seq<Ops>): Copy { c.(pending := batch + c.pending, flushTimer := true) }

  function Destroyed(c: Copy): Copy { c.(flushTimer := false, destroyed := true) }

  function Joined(c: Copy, peer: Peer): Copy { c.(peers := c.peers + {peer}) }
  function Left(c: Copy, peer: Peer): Copy { c.(peers := c.peers - {peer}) }

  /** A replica's own edit is done: a copy opened for it alone is released. */
  predicate ReleasedAfterEdit(c: Copy, alreadyOpen: bool, stillOpen: bool) {
    !alreadyOpen && c.peers == {} && c.pending == [] && stillOpen
  }

  /** A save that fails leaves the queue as if it had not been tried, whatever was edited meanwhile. */
  lemma {:induction false} FailedSaveUndone(c: Copy, ops: Ops)
    ensures PutBack(Accept(Taken(c), ops), c.pending) == Accept(c, ops).(flushTimer := true)
    ensures PutBack(Taken(c), c.pending) == c.(flushTimer := true)
  {
    assert c.pending + ([] + [News(c, ops)]) == c.pending + [News(c, ops)];
  }

  /** However replicas come by the same updates, in whatever order and however often, they hold the same document. */
  lemma {:induction false} SameUpdatesSameDocument(xs: seq<Ops>, ys: seq<Ops>)
    requires forall x :: x in xs <==> x in ys
    ensures Merged(xs) == Merged(ys)
  {
    forall op ensures op in Merged(xs) <==> op in Merged(ys) {
      if op in Merged(xs) {
        var i :| 0 <= i < |xs| && op in xs[i];
        assert xs[i] in ys;
      }
      if op in Merged(ys) {
        var i :| 0 <= i < |ys| && op in ys[i];
        assert ys[i] in xs;
      }
    }
  }
}
