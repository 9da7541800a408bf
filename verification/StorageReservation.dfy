/**
 * Room for an upload, checked and taken as one step per session (`withStorageReserved` and `storageRefusal`,
 * gateway/src/limits.ts). Each await ends a step: taking the session's lock, measuring under it, recording the upload,
 * letting the lock go. Any number of uploads, in any sessions, interleave; anything may be deleted at any time.
 */
module StorageReservation {
  import opened Options

  type Session = string
  type Room = string

  datatype Row = Row(room: Room, bytes: nat)
  datatype Limits = Limits(room: nat, session: nat)
  datatype Usage = Usage(room: nat, session: nat)
  datatype Refusal = RoomFull | SessionFull

  function RoomBytes(rows: seq<Row>, room: Room): nat {
    if rows == [] then 0 else (if rows[0].room == room then rows[0].bytes else 0) + RoomBytes(rows[1..], room)
  }

  /** A room belongs to one session. */
  function SessionBytes(rows: seq<Row>, sessionOf: Room -> Session, session: Session): nat {
    if rows == [] then 0
    else (if sessionOf(rows[0].room) == session then rows[0].bytes else 0) + SessionBytes(rows[1..], sessionOf, session)
  }

  function UsageOf(rows: seq<Row>, sessionOf: Room -> Session, room: Room): Usage {
    Usage(RoomBytes(rows, room), SessionBytes(rows, sessionOf, sessionOf(room)))
  }

  function StorageRefusal(l: Limits, usage: Usage, bytes: nat): Option<Refusal> {
    if usage.room + bytes > l.room then Some(RoomFull)
    else if usage.session + bytes > l.session then Some(SessionFull)
    else None
  }

  datatype Stage = Locked | Cleared(usage: Usage) | Ended
  /** An upload being recorded. */
  datatype Upload = Upload(room: Room, bytes: nat, stage: Stage)

  datatype State = State(rows: seq<Row>, holders: map<Session, nat>, uploads: seq<Upload>)

  datatype Step =
    | TakeLock(room: Room, bytes: nat)
    | Measure(upload: nat)
    | Record(upload: nat)
    | Fail(upload: nat)
    | Delete(row: nat)

  predicate Enabled(s: State, sessionOf: Room -> Session, step: Step) {
    match step
    case TakeLock(room, _) => sessionOf(room) !in s.holders
    case Measure(u) => u < |s.uploads| && s.uploads[u].stage.Locked?
    case Record(u) => u < |s.uploads| && s.uploads[u].stage.Cleared?
    case Fail(u) => u < |s.uploads| && !s.uploads[u].stage.Ended?
    case Delete(r) => r < |s.rows|
  }

  /** The end of an upload's turn: its session's lock is free again. */
  function Released(s: State, sessionOf: Room -> Session, u: nat): State
    requires u < |s.uploads|
  {
    s.(uploads := s.uploads[u := s.uploads[u].(stage := Ended)], holders := s.holders - {sessionOf(s.uploads[u].room)})
  }

  function Next(s: State, l: Limits, sessionOf: Room -> Session, step: Step): State
    requires Enabled(s, sessionOf, step)
  {
    match step
    case TakeLock(room, bytes) =>
      s.(uploads := s.uploads + [Upload(room, bytes, Locked)], holders := s.holders[sessionOf(room) := |s.uploads|])
    case Measure(u) =>
      var upload := s.uploads[u];
      var usage := UsageOf(s.rows, sessionOf, upload.room);
      if StorageRefusal(l, usage, upload.bytes).Some? then Released(s, sessionOf, u)
      else s.(uploads := s.uploads[u := upload.(stage := Cleared(usage))])
    case Record(u) =>
      Released(s, sessionOf, u).(rows := s.rows + [Row(s.uploads[u].room, s.uploads[u].bytes)])
    case Fail(u) => Released(s, sessionOf, u)
    case Delete(r) => s.(rows := s.rows[..r] + s.rows[r + 1..])
  }

  predicate IsRun(s: State, l: Limits, sessionOf: Room -> Session, steps: seq<Step>)
    decreases steps
  {
    steps == [] || (Enabled(s, sessionOf, steps[0]) && IsRun(Next(s, l, sessionOf, steps[0]), l, sessionOf, steps[1..]))
  }

  function After(s: State, l: Limits, sessionOf: Room -> Session, steps: seq<Step>): State
    requires IsRun(s, l, sessionOf, steps)
    decreases steps
  {
    if steps == [] then s else After(Next(s, l, sessionOf, steps[0]), l, sessionOf, steps[1..])
  }

  const EMPTY := State([], map[], [])

  // ---- totals --------------------------------------------------------------------------------------

  lemma {:induction false} BytesAppend(a: seq<Row>, b: seq<Row>, sessionOf: Room -> Session, room: Room,
                                       session: Session)
    ensures RoomBytes(a + b, room) == RoomBytes(a, room) + RoomBytes(b, room)
    ensures SessionBytes(a + b, sessionOf, session) == SessionBytes(a, sessionOf, session)
              + SessionBytes(b, sessionOf, session)
    decreases a
  {
    if a == [] {
      assert a + b == b;
    } else {
      BytesAppend(a[1..], b, sessionOf, room, session);
      assert (a + b)[1..] == a[1..] + b;
    }
  }

  lemma {:induction false} BytesAfterRecord(rows: seq<Row>, row: Row, sessionOf: Room -> Session, room: Room,
                                            session: Session)
    ensures RoomBytes(rows + [row], room) == RoomBytes(rows, room) + if row.room == room then row.bytes else 0
    ensures SessionBytes(rows + [row], sessionOf, session)
         == SessionBytes(rows, sessionOf, session) + if sessionOf(row.room) == session then row.bytes else 0
  {
    BytesAppend(rows, [row], sessionOf, room, session);
    assert RoomBytes([row][1..], room) == 0 && SessionBytes([row][1..], sessionOf, session) == 0;
  }

  lemma {:induction false} BytesAfterDelete(rows: seq<Row>, r: nat, sessionOf: Room -> Session, room: Room,
                                            session: Session)
    requires r < |rows|
    ensures RoomBytes(rows[..r] + rows[r + 1..], room) <= RoomBytes(rows, room)
    ensures SessionBytes(rows[..r] + rows[r + 1..], sessionOf, session) <= SessionBytes(rows, sessionOf, session)
  {
    assert rows == rows[..r] + rows[r..];
    BytesAppend(rows[..r], rows[r..], sessionOf, room, session);
    BytesAppend(rows[..r], rows[r + 1..], sessionOf, room, session);
    assert rows[r..][1..] == rows[r + 1..];
  }

  // ---- the limits hold ------------------------------------------------------------------------------

  ghost predicate WithinLimits(s: State, l: Limits, sessionOf: Room -> Session) {
    && (forall room :: RoomBytes(s.rows, room) <= l.room)
    && (forall session :: SessionBytes(s.rows, sessionOf, session) <= l.session)
  }

  /** An upload at work holds its session's lock; one cleared was measured when there was at least as much as now. */
  ghost predicate UploadInv(s: State, l: Limits, sessionOf: Room -> Session, u: nat)
    requires u < |s.uploads|
  {
    var upload := s.uploads[u];
    && (!upload.stage.Ended? ==> sessionOf(upload.room) in s.holders && s.holders[sessionOf(upload.room)] == u)
    && (upload.stage.Cleared? ==>
          && StorageRefusal(l, upload.stage.usage, upload.bytes).None?
          && RoomBytes(s.rows, upload.room) <= upload.stage.usage.room
          && SessionBytes(s.rows, sessionOf, sessionOf(upload.room)) <= upload.stage.usage.session)
  }

  ghost predicate Inv(s: State, l: Limits, sessionOf: Room -> Session) {
    WithinLimits(s, l, sessionOf) && forall u | 0 <= u < |s.uploads| :: UploadInv(s, l, sessionOf, u)
  }

  lemma {:induction false} RecordKeeps(s: State, l: Limits, sessionOf: Room -> Session, u: nat)
    requires Inv(s, l, sessionOf) && Enabled(s, sessionOf, Record(u))
    ensures Inv(Next(s, l, sessionOf, Record(u)), l, sessionOf)
  {
    var t, mine := Next(s, l, sessionOf, Record(u)), s.uploads[u];
    var row := Row(mine.room, mine.bytes);
    assert UploadInv(s, l, sessionOf, u);
    forall room ensures RoomBytes(t.rows, room) <= l.room {
      BytesAfterRecord(s.rows, row, sessionOf, room, "");
    }
    forall session ensures SessionBytes(t.rows, sessionOf, session) <= l.session {
      BytesAfterRecord(s.rows, row, sessionOf, mine.room, session);
    }
    forall v | 0 <= v < |t.uploads| ensures UploadInv(t, l, sessionOf, v) {
      assert UploadInv(s, l, sessionOf, v);
      var other := s.uploads[v];
      BytesAfterRecord(s.rows, row, sessionOf, other.room, sessionOf(other.room));
    }
  }

  lemma {:induction false} DeleteKeeps(s: State, l: Limits, sessionOf: Room -> Session, r: nat)
    requires Inv(s, l, sessionOf) && Enabled(s, sessionOf, Delete(r))
    ensures Inv(Next(s, l, sessionOf, Delete(r)), l, sessionOf)
  {
    var t := Next(s, l, sessionOf, Delete(r));
    forall room ensures RoomBytes(t.rows, room) <= l.room {
      BytesAfterDelete(s.rows, r, sessionOf, room, "");
    }
    forall session ensures SessionBytes(t.rows, sessionOf, session) <= l.session {
      BytesAfterDelete(s.rows, r, sessionOf, "", session);
    }
    forall v | 0 <= v < |t.uploads| ensures UploadInv(t, l, sessionOf, v) {
      assert UploadInv(s, l, sessionOf, v);
      BytesAfterDelete(s.rows, r, sessionOf, s.uploads[v].room, sessionOf(s.uploads[v].room));
    }
  }

  lemma {:induction false} InvStep(s: State, l: Limits, sessionOf: Room -> Session, step: Step)
    requires Inv(s, l, sessionOf) && Enabled(s, sessionOf, step)
    ensures Inv(Next(s, l, sessionOf, step), l, sessionOf)
  {
    match step
    case Record(u) => RecordKeeps(s, l, sessionOf, u);
    case Delete(r) => DeleteKeeps(s, l, sessionOf, r);
    case Measure(u) => TurnKeeps(s, l, sessionOf, step, u);
    case Fail(u) => TurnKeeps(s, l, sessionOf, step, u);
    case TakeLock(room, bytes) =>
      var t := Next(s, l, sessionOf, step);
      forall v | 0 <= v < |t.uploads| ensures UploadInv(t, l, sessionOf, v) {
        if v < |s.uploads| {
          assert UploadInv(s, l, sessionOf, v);
        }
      }
  }

  lemma {:induction false} TurnKeeps(s: State, l: Limits, sessionOf: Room -> Session, step: Step, u: nat)
    requires Inv(s, l, sessionOf) && Enabled(s, sessionOf, step) && (step == Measure(u) || step == Fail(u))
    ensures Inv(Next(s, l, sessionOf, step), l, sessionOf)
  {
    var t := Next(s, l, sessionOf, step);
    assert UploadInv(s, l, sessionOf, u);
    forall v | 0 <= v < |t.uploads| ensures UploadInv(t, l, sessionOf, v) {
      assert UploadInv(s, l, sessionOf, v);
    }
  }

  lemma {:induction false} InvAlways(s: State, l: Limits, sessionOf: Room -> Session, steps: seq<Step>)
    requires Inv(s, l, sessionOf) && IsRun(s, l, sessionOf, steps)
    ensures Inv(After(s, l, sessionOf, steps), l, sessionOf)
    decreases steps
  {
    if steps != [] {
      InvStep(s, l, sessionOf, steps[0]);
      InvAlways(Next(s, l, sessionOf, steps[0]), l, sessionOf, steps[1..]);
    }
  }

  /** However uploads interleave, no room and no session ever holds more than its limit. */
  lemma {:induction false} LimitsHold(l: Limits, sessionOf: Room -> Session, steps: seq<Step>)
    requires IsRun(EMPTY, l, sessionOf, steps)
    ensures WithinLimits(After(EMPTY, l, sessionOf, steps), l, sessionOf)
  {
    InvAlways(EMPTY, l, sessionOf, steps);
  }

  /** And nothing is refused that fits: an upload is refused only if recording it as things stand would pass a limit. */
  lemma {:induction false} RefusedOnlyIfFull(s: State, l: Limits, sessionOf: Room -> Session, u: nat)
    requires Inv(s, l, sessionOf) && Enabled(s, sessionOf, Measure(u))
    ensures Next(s, l, sessionOf, Measure(u)).uploads[u].stage.Ended?
       <==> !WithinLimits(s.(rows := s.rows + [Row(s.uploads[u].room, s.uploads[u].bytes)]), l, sessionOf)
  {
    var upload := s.uploads[u];
    var row := Row(upload.room, upload.bytes);
    var t := s.(rows := s.rows + [row]);
    BytesAfterRecord(s.rows, row, sessionOf, upload.room, sessionOf(upload.room));
    if !Next(s, l, sessionOf, Measure(u)).uploads[u].stage.Ended? {
      forall room ensures RoomBytes(t.rows, room) <= l.room {
        BytesAfterRecord(s.rows, row, sessionOf, room, "");
      }
      forall session ensures SessionBytes(t.rows, sessionOf, session) <= l.session {
        BytesAfterRecord(s.rows, row, sessionOf, "", session);
      }
    }
  }

  /** It is refused for the room if recording it would pass the room's limit, and else for the session's. */
  lemma {:induction false} RefusedFor(l: Limits, sessionOf: Room -> Session, rows: seq<Row>, room: Room, bytes: nat)
    ensures var all := rows + [Row(room, bytes)];
            StorageRefusal(l, UsageOf(rows, sessionOf, room), bytes) ==
              if RoomBytes(all, room) > l.room then Some(RoomFull)
              else if SessionBytes(all, sessionOf, sessionOf(room)) > l.session then Some(SessionFull)
              else None
  {
    BytesAfterRecord(rows, Row(room, bytes), sessionOf, room, sessionOf(room));
  }

  // ---- why the lock ------------------------------------------------------------------------------------

  /**
   * Checked separately, as an upload first is before anything is stored: two that each fit alone, measured before
   * either is recorded, are both recorded, and pass the limits whenever they do not fit together. Measured after the
   * first is recorded, the second is then refused.
   */
  lemma {:induction false} UnlockedChecksLetBothIn(rows: seq<Row>, l: Limits, sessionOf: Room -> Session, room: Room,
                                                   x: nat, y: nat)
    requires StorageRefusal(l, UsageOf(rows, sessionOf, room), x).None?
    requires StorageRefusal(l, UsageOf(rows, sessionOf, room), y).None?
    ensures var both := rows + [Row(room, x)] + [Row(room, y)];
            var passes := RoomBytes(both, room) > l.room || SessionBytes(both, sessionOf, sessionOf(room)) > l.session;
            && (passes <==>
                  || RoomBytes(rows, room) + x + y > l.room
                  || SessionBytes(rows, sessionOf, sessionOf(room)) + x + y > l.session)
            && (passes <==> StorageRefusal(l, UsageOf(rows + [Row(room, x)], sessionOf, room), y).Some?)
  {
    BytesAfterRecord(rows, Row(room, x), sessionOf, room, sessionOf(room));
    BytesAfterRecord(rows + [Row(room, x)], Row(room, y), sessionOf, room, sessionOf(room));
  }
}
