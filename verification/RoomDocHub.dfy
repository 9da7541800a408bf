/**
 * The hub's own state on one replica (`RoomDoc` and `RoomDocHub`, gateway/src/docs/roomDocs.ts): the table of open
 * copies, and the copies' fields. Each method is one stretch between two awaits, told in terms of `NotesCopy` and
 * `NotesHistory`; `NotesHub` runs the same stretches on any number of replicas at once.
 */
module RoomDocHub {
  import opened NotesCopy
  import opened NotesHistory
  import opened Options

  type Key = string

  class RoomDoc {
    var doc: Ops
    var pending: seq<Ops>
    var flushTimer: bool
    var destroyed: bool
    var peers: set<Peer>
    var baseline: Option<Baseline>
    var lastVersionAt: int

    constructor ()
      ensures AsCopy() == NEW_COPY && AsHistory() == History(None, 0)
    {
      doc, pending, flushTimer, destroyed, peers := {}, [], false, false, {};
      baseline, lastVersionAt := None, 0;
    }

    function AsCopy(): Copy
      reads this
    {
      Copy(doc, pending, flushTimer, destroyed, peers)
    }

    function AsHistory(): History
      reads this
    {
      History(baseline, lastVersionAt)
    }

    /** The update listener, which a destroyed document no longer has. Returns what is published. */
    method Heard(ops: Ops) returns (published: Ops)
      modifies `doc, `pending, `flushTimer
      ensures AsCopy() == Accept(old(AsCopy()), ops) && published == News(old(AsCopy()), ops)
    {
      published := if destroyed then {} else ops - doc;
      doc := doc + ops;
      if published != {} {
        pending := pending + [published];
        ScheduleFlush();
      }
    }

    method ScheduleFlush()
      modifies `flushTimer
      ensures flushTimer
    {
      if !flushTimer {
        flushTimer := true;
      }
    }

    method Destroy()
      modifies `flushTimer, `destroyed
      ensures AsCopy() == Destroyed(old(AsCopy()))
    {
      flushTimer, destroyed := false, true;
    }

    method KeepHistory(look: Look, versionEvery: int) returns (version: Option<Version>)
      modifies `baseline, `lastVersionAt
      ensures AsHistory() == Keep(old(AsHistory()), look, versionEvery).0
      ensures version == Keep(old(AsHistory()), look, versionEvery).1
    {
      version := None;
      if baseline.Some? && baseline.value.size - look.size >= LARGE_DELETION_CHARS
           && 10 * look.size <= 6 * baseline.value.size {
        version := Some(Version(baseline.value.state, BeforeLargeDeletion));
        lastVersionAt := look.now;
        baseline := Some(Baseline(look.doc, look.size, look.now));
        return;
      } else if look.now - lastVersionAt >= versionEvery {
        version := Some(Version(look.doc, Hourly));
        lastVersionAt := look.now;
      }
      if baseline.None? || look.now - baseline.value.at >= BASELINE_MS || look.size >= baseline.value.size {
        baseline := Some(Baseline(look.doc, look.size, look.now));
      }
    }

    /** Up to the await: takes what is pending, if anything is, and keeps a restore point if one is due. */
    method StartFlush(size: nat, now: int, versionEvery: int) returns (batch: seq<Ops>, version: Option<Version>)
      modifies `pending, `flushTimer, `baseline, `lastVersionAt
      ensures AsCopy() == Taken(old(AsCopy())) && batch == old(pending)
      ensures batch == [] ==> version == None && AsHistory() == old(AsHistory())
      ensures batch != [] ==> (AsHistory(), version) == Keep(old(AsHistory()), Look(doc, size, now), versionEvery)
    {
      flushTimer := false;
      batch, version := pending, None;
      if pending == [] { return; }
      pending := [];
      version := KeepHistory(Look(doc, size, now), versionEvery);
    }

    method SaveFailed(batch: seq<Ops>)
      modifies `pending, `flushTimer
      ensures AsCopy() == PutBack(old(AsCopy()), batch)
    {
      pending := batch + pending;
      ScheduleFlush();
    }

    /**
     * The release of a copy, when nothing else comes between: `saved(n)` says whether the n-th append goes through. All
     * that waited is stored, unless the last attempt failed too.
     */
    method Release(size: nat, now: int, versionEvery: int, saved: nat -> bool) returns (stored: Ops, gaveUp: bool)
      modifies this
      ensures destroyed && !flushTimer && doc == old(doc)
      ensures gaveUp <==> old(pending) != [] && forall n | 1 <= n <= RELEASE_SAVE_ATTEMPTS :: !saved(n)
      ensures stored == if gaveUp then {} else Merged(old(pending))
      ensures pending == if gaveUp then old(pending) else []
    {
      stored := {};
      var attempt: nat := 1;
      while attempt <= RELEASE_SAVE_ATTEMPTS
        invariant 1 <= attempt <= RELEASE_SAVE_ATTEMPTS + 1 && doc == old(doc)
        invariant forall n | 1 <= n < attempt :: old(pending) != [] && !saved(n)
        invariant stored == {} && pending == old(pending)
      {
        var batch, _ := StartFlush(size, now, versionEvery);
        if batch != [] {
          if saved(attempt) {
            stored := stored + Merged(batch);
          } else {
            SaveFailed(batch);
            assert batch + [] == batch;
          }
        }
        if pending == [] { break; }
        attempt := attempt + 1;
      }
      gaveUp := pending != [];
      Destroy();
    }
  }

  class RoomDocHub {
    var rooms: map<Key, RoomDoc>

    /** Each open copy is its room's own, and is listening. */
    ghost predicate Valid()
      reads this, rooms.Values
    {
      && (forall k, l | k in rooms && l in rooms && rooms[k] == rooms[l] :: k == l)
      && (forall k | k in rooms :: !rooms[k].destroyed)
    }

    constructor ()
      ensures Valid() && rooms == map[]
    {
      rooms := map[];
    }

    method Open(key: Key) returns (room: RoomDoc)
      requires Valid()
      modifies `rooms
      ensures Valid() && rooms == old(rooms)[key := room]
      ensures key in old(rooms) ==> room == old(rooms)[key] && rooms == old(rooms)
      ensures key !in old(rooms) ==> fresh(room) && room.AsCopy() == NEW_COPY && room.AsHistory() == History(None, 0)
    {
      if key in rooms {
        return rooms[key];
      }
      room := new RoomDoc();
      rooms := rooms[key := room];
    }

    /** The load has been answered with these parts; `latest` is when the document's last restore point was kept. */
    method LoadDone(room: RoomDoc, parts: seq<Ops>, sizeOf: Ops -> nat, now: int, latest: int)
      modifies room
      ensures room.AsCopy() == Apply(old(room.AsCopy()), Merged(parts))
      ensures room.AsHistory() == Loaded(Look(room.doc, sizeOf(room.doc), now), latest)
    {
      room.doc := room.doc + Merged(parts);
      room.baseline := Some(Baseline(room.doc, sizeOf(room.doc), now));
      room.lastVersionAt := latest;
    }

    /** The room's entry goes even if it is a newer copy's; the newer copy is left listening, in no table. */
    method LoadFailed(key: Key, room: RoomDoc)
      requires Valid() && (forall k | k in rooms && k != key :: rooms[k] != room)
      modifies `rooms, room
      ensures Valid() && rooms == old(rooms) - {key} && room.AsCopy() == Destroyed(old(room.AsCopy()))
      ensures room.AsHistory() == old(room.AsHistory())
    {
      rooms := rooms - {key};
      room.Destroy();
    }

    /** Published by any replica, this one included; dropped when nobody here has the document open. */
    method Relay(key: Key, ops: Ops, from: Peer) returns (told: set<Peer>)
      requires Valid()
      modifies if key in rooms then {rooms[key]} else {}
      ensures Valid()
      ensures key !in rooms ==> told == {}
      ensures key in rooms ==>
                rooms[key].AsCopy() == Apply(old(rooms[key].AsCopy()), ops) && told == rooms[key].peers - {from}
    {
      if key !in rooms { return {}; }
      var room := rooms[key];
      room.doc := room.doc + ops;
      told := room.peers - {from};
    }

    method Leave(key: Key, peer: Peer)
      requires Valid()
      modifies if key in rooms then {rooms[key]} else {}
      ensures Valid() && (key in rooms ==> rooms[key].AsCopy() == Left(old(rooms[key].AsCopy()), peer))
    {
      if key !in rooms { return; }
      var room := rooms[key];
      room.peers := room.peers - {peer};
    }

    /** The start of `drop`: the copy leaves the table, still listening. */
    method StartDrop(key: Key) returns (room: RoomDoc?)
      requires Valid()
      modifies `rooms
      ensures Valid() && rooms == old(rooms) - {key}
      ensures room == if key in old(rooms) then old(rooms)[key] else null
    {
      if key !in rooms { return null; }
      room := rooms[key];
      rooms := rooms - {key};
    }

    method Discard(key: Key)
      requires Valid()
      modifies `rooms, if key in rooms then {rooms[key]} else {}
      ensures Valid() && rooms == old(rooms) - {key}
      ensures key in old(rooms) ==> old(rooms)[key].AsCopy() == Destroyed(old(rooms[key].AsCopy()))
    {
      if key !in rooms { return; }
      var room := rooms[key];
      rooms := rooms - {key};
      room.Destroy();
    }

    /** The middle of `edit`: the change is made and its save begun. */
    method ApplyEdit(room: RoomDoc, change: Ops, sizeOf: Ops -> nat, now: int, versionEvery: int)
        returns (published: Ops, batch: seq<Ops>, version: Option<Version>)
      modifies room
      ensures room.AsCopy() == Taken(Accept(old(room.AsCopy()), change))
      ensures published == News(old(room.AsCopy()), change) && batch == Accept(old(room.AsCopy()), change).pending
    {
      published := room.Heard(change);
      batch, version := room.StartFlush(sizeOf(room.doc), now, versionEvery);
    }

    /** The end of `edit`: a copy opened for it alone is let go, unless a failed save waits in it. */
    method FinishEdit(key: Key, room: RoomDoc, alreadyOpen: bool) returns (released: bool)
      requires Valid()
      modifies `rooms, room
      ensures Valid()
      ensures released == ReleasedAfterEdit(old(room.AsCopy()), alreadyOpen, key in old(rooms)
                                            && old(rooms)[key] == room)
      ensures rooms == if released then old(rooms) - {key} else old(rooms)
      ensures room.AsCopy() == if released then Destroyed(old(room.AsCopy())) else old(room.AsCopy())
      ensures room.AsHistory() == old(room.AsHistory())
    {
      released := !alreadyOpen && room.peers == {} && room.pending == [] && key in rooms && rooms[key] == room;
      if released {
        rooms := rooms - {key};
        room.Destroy();
      }
    }
  }
}
