/**
 * Restore points (`keepHistory`, gateway/src/docs/roomDocs.ts). A document's size is given with it: here it is only
 * ever compared. Times are the replica's clock at each save, in milliseconds, and never go back.
 */
module NotesHistory {
  import opened NotesCopy
  import opened Options

  const LARGE_DELETION_CHARS := 400
  const BASELINE_MS := 30_000

  /** A kept copy of the document, its size, and when it was kept. */
  datatype Baseline = Baseline(state: Ops, size: nat, at: int)
  datatype History = History(baseline: Option<Baseline>, lastVersionAt: int)

  datatype Reason = BeforeLargeDeletion | Hourly
  datatype Version = Version(state: Ops, reason: Reason)

  /** The document as it is when a batch is about to be saved. */
  datatype Look = Look(doc: Ops, size: nat, now: int)

  /** 400 characters gone, and at least 40% of what there was. */
  predicate LargeDeletion(before: nat, after: nat) {
    before - after >= LARGE_DELETION_CHARS && 10 * after <= 6 * before
  }

  /** `keepHistory`: the history it leaves, and the version it saves. */
  function Keep(h: History, look: Look, versionEvery: int): (History, Option<Version>) {
    var refreshed := Some(Baseline(look.doc, look.size, look.now));
    if h.baseline.Some? && LargeDeletion(h.baseline.value.size, look.size) then
      (History(refreshed, look.now), Some(Version(h.baseline.value.state, BeforeLargeDeletion)))
    else
      var hourly := look.now - h.lastVersionAt >= versionEvery;
      var baseline :=
        if h.baseline.None? || look.now - h.baseline.value.at >= BASELINE_MS || look.size >= h.baseline.value.size
        then refreshed else h.baseline;
      (History(baseline, if hourly then look.now else h.lastVersionAt),
       if hourly then Some(Version(look.doc, Hourly)) else None)
  }

  /** The history after a run of saves. */
  function KeepAll(h: History, looks: seq<Look>, versionEvery: int): History
    decreases |looks|
  {
    if looks == [] then h
    else Keep(KeepAll(h, looks[..|looks| - 1], versionEvery), looks[|looks| - 1], versionEvery).0
  }

  /** What the load that opened the copy leaves. */
  function Loaded(look: Look, latestVersion: int): History {
    History(Some(Baseline(look.doc, look.size, look.now)), latestVersion)
  }

  ghost predicate InOrder(looks: seq<Look>) {
    forall i, j | 0 <= i < j < |looks| :: looks[i].now <= looks[j].now
  }

  /** The kept copy is what one of these looks saw, at least as large as the last of them, and under 30 s older. */
  ghost predicate CoversLast(h: History, looks: seq<Look>)
    requires looks != []
  {
    var last := looks[|looks| - 1];
    && h.baseline.Some?
    && (exists i :: 0 <= i < |looks| && h.baseline.value == Baseline(looks[i].doc, looks[i].size, looks[i].now))
    && h.baseline.value.size >= last.size
    && last.now - h.baseline.value.at < BASELINE_MS
  }

  lemma {:induction false} KeepCovers(h: History, looks: seq<Look>, look: Look, versionEvery: int)
    requires looks != [] && CoversLast(h, looks)
    ensures CoversLast(Keep(h, look, versionEvery).0, looks + [look])
  {
    var all, after := looks + [look], Keep(h, look, versionEvery).0;
    if after.baseline == h.baseline {
      var i :| 0 <= i < |looks| && h.baseline.value == Baseline(looks[i].doc, looks[i].size, looks[i].now);
      assert all[i] == looks[i];
    } else {
      assert all[|looks|] == look;
    }
  }

  /** After every save the kept copy is at least as large as the document then, and less than 30 s old. */
  lemma {:induction false} BaselineCovers(first: Look, looks: seq<Look>, latestVersion: int, versionEvery: int)
    ensures CoversLast(KeepAll(Loaded(first, latestVersion), looks, versionEvery), [first] + looks)
    decreases |looks|
  {
    if looks == [] {
      assert ([first] + looks)[0] == first;
    } else {
      var before, last := looks[..|looks| - 1], looks[|looks| - 1];
      BaselineCovers(first, before, latestVersion, versionEvery);
      KeepCovers(KeepAll(Loaded(first, latestVersion), before, versionEvery), [first] + before, last, versionEvery);
      assert [first] + looks == ([first] + before) + [last];
    }
  }

  /**
   * A restore point before every large deletion: when the document shrinks by 400 characters and 40% from what it was
   * at this replica's last save, that save keeps a copy at least as large as it was then, which the replica saw less
   * than 30 s before that.
   */
  lemma {:induction false} RestorePointBeforeLargeDeletion(first: Look, looks: seq<Look>, look: Look,
                                                           latestVersion: int, versionEvery: int)
    requires LargeDeletion(([first] + looks)[|looks|].size, look.size)
    ensures var seen, h := [first] + looks, KeepAll(Loaded(first, latestVersion), looks, versionEvery);
            exists i :: 0 <= i < |seen| && seen[i].size >= seen[|looks|].size
                && seen[|looks|].now - seen[i].now < BASELINE_MS
              && Keep(h, look, versionEvery).1 == Some(Version(seen[i].doc, BeforeLargeDeletion))
  {
    var seen, h := [first] + looks, KeepAll(Loaded(first, latestVersion), looks, versionEvery);
    BaselineCovers(first, looks, latestVersion, versionEvery);
    var i :| 0 <= i < |seen| && h.baseline.value == Baseline(seen[i].doc, seen[i].size, seen[i].now);
    assert Keep(h, look, versionEvery).1 == Some(Version(seen[i].doc, BeforeLargeDeletion));
  }

  /** The converse: such a version is kept only when that much really went, within 30 s and one save of it. */
  lemma {:induction false} LargeDeletionOnly(first: Look, looks: seq<Look>, look: Look, latestVersion: int,
                                             versionEvery: int)
    requires var h := KeepAll(Loaded(first, latestVersion), looks, versionEvery);
             Keep(h, look, versionEvery).1.Some? && Keep(h, look, versionEvery).1.value.reason.BeforeLargeDeletion?
    ensures var seen := [first] + looks;
            exists i :: 0 <= i < |seen| && LargeDeletion(seen[i].size, look.size)
                && seen[|looks|].now - seen[i].now < BASELINE_MS
              && seen[i].doc == Keep(KeepAll(Loaded(first, latestVersion), looks, versionEvery), look,
                                     versionEvery).1.value.state
  {
    var seen, h := [first] + looks, KeepAll(Loaded(first, latestVersion), looks, versionEvery);
    BaselineCovers(first, looks, latestVersion, versionEvery);
    var i :| 0 <= i < |seen| && h.baseline.value == Baseline(seen[i].doc, seen[i].size, seen[i].now);
  }

  /**
   * So when the replica saw nothing larger in the last 30 s, what counts is its last look, whatever the document grew
   * to elsewhere since: a copy is kept if and only if that much went of what it saw then.
   */
  lemma {:induction false} CoveredIffLastLook(first: Look, looks: seq<Look>, look: Look, latestVersion: int,
                                              versionEvery: int)
    requires var seen := [first] + looks;
             forall i | 0 <= i < |seen|
                      && seen[|looks|].now - seen[i].now < BASELINE_MS :: seen[i].size <= seen[|looks|].size
    ensures var seen, h := [first] + looks, KeepAll(Loaded(first, latestVersion), looks, versionEvery);
            var kept := Keep(h, look, versionEvery).1;
            kept.Some? && kept.value.reason.BeforeLargeDeletion? <==> LargeDeletion(seen[|looks|].size, look.size)
  {
    var h := KeepAll(Loaded(first, latestVersion), looks, versionEvery);
    var kept := Keep(h, look, versionEvery).1;
    if LargeDeletion(([first] + looks)[|looks|].size, look.size) {
      RestorePointBeforeLargeDeletion(first, looks, look, latestVersion, versionEvery);
    }
    if kept.Some? && kept.value.reason.BeforeLargeDeletion? {
      LargeDeletionOnly(first, looks, look, latestVersion, versionEvery);
    }
  }

  /** A large deletion takes 400 characters at the least, and two fifths of what there was. */
  lemma {:induction false} LargeDeletionIff(before: nat, after: nat)
    ensures LargeDeletion(before, after) <==> before - after >= 400 && 5 * (before - after) >= 2 * before
  {
  }

  // ---- deletions spread over several saves -------------------------------------------------------

  /** A document as large as any seen before it is the one kept. */
  lemma {:induction false} LargestIsKept(first: Look, looks: seq<Look>, latestVersion: int, versionEvery: int)
    requires var seen := [first] + looks; forall i | 0 <= i < |seen| :: seen[i].size <= seen[|looks|].size
    ensures var last := ([first] + looks)[|looks|];
            KeepAll(Loaded(first, latestVersion), looks, versionEvery).baseline ==
              Some(Baseline(last.doc, last.size, last.now))
  {
    if looks != [] {
      var before, seen := looks[..|looks| - 1], [first] + looks;
      BaselineCovers(first, before, latestVersion, versionEvery);
      var h := KeepAll(Loaded(first, latestVersion), before, versionEvery);
      var i :| 0 <= i < |[first] + before|
               && h.baseline.value == Baseline(([first] + before)[i].doc, ([first] + before)[i].size,
                                               ([first] + before)[i].now);
      assert seen[i] == ([first] + before)[i] && seen[|looks|] == looks[|looks| - 1];
    }
  }

  /** Smaller since, by less than a large deletion, and less than 30 s later. */
  predicate LittleLess(kept: Baseline, look: Look) {
    look.size < kept.size && look.now - kept.at < BASELINE_MS && !LargeDeletion(kept.size, look.size)
  }

  lemma {:induction false} KeptMeanwhile(h: History, looks: seq<Look>, versionEvery: int)
    requires h.baseline.Some? && forall i | 0 <= i < |looks| :: LittleLess(h.baseline.value, looks[i])
    ensures KeepAll(h, looks, versionEvery).baseline == h.baseline
    decreases |looks|
  {
    if looks != [] {
      KeptMeanwhile(h, looks[..|looks| - 1], versionEvery);
    }
  }

  /**
   * A large deletion made bit by bit: from a document as large as any seen, through saves less than 30 s later of
   * slightly smaller ones, to one much smaller than the first. A copy of the first is kept then, and not before.
   */
  lemma {:induction false} RestorePointBeforeGradualDeletion(first: Look, looks: seq<Look>, between: seq<Look>,
                                                             look: Look, latestVersion: int, versionEvery: int)
    requires var seen := [first] + looks;
             && (forall i | 0 <= i < |seen| :: seen[i].size <= seen[|looks|].size)
             && var top := seen[|looks|];
                forall i | 0 <= i < |between| :: LittleLess(Baseline(top.doc, top.size, top.now), between[i])
    ensures var top, h := ([first] + looks)[|looks|], KeepAll(Loaded(first, latestVersion), looks, versionEvery);
            var kept := Keep(KeepAll(h, between, versionEvery), look, versionEvery).1;
            kept == Some(Version(top.doc, BeforeLargeDeletion)) <==> LargeDeletion(top.size, look.size)
  {
    LargestIsKept(first, looks, latestVersion, versionEvery);
    KeptMeanwhile(KeepAll(Loaded(first, latestVersion), looks, versionEvery), between, versionEvery);
  }

  // ---- hourly restore points -----------------------------------------------------------------------

  /** For each look of a run, when it kept a version, if it did. */
  function KeptTimes(h: History, looks: seq<Look>, versionEvery: int): (times: seq<Option<int>>)
    ensures |times| == |looks|
    decreases |looks|
  {
    if looks == [] then []
    else
      var before, last := looks[..|looks| - 1], looks[|looks| - 1];
      KeptTimes(h, before, versionEvery)
        + [if Keep(KeepAll(h, before, versionEvery), last, versionEvery).1.Some? then Some(last.now) else None]
  }

  lemma {:induction false} LastVersionIsLastKept(h: History, looks: seq<Look>, versionEvery: int)
    ensures LastNamed(Some(KeepAll(h, looks, versionEvery).lastVersionAt), Some(h.lastVersionAt),
                      KeptTimes(h, looks, versionEvery))
    decreases |looks|
  {
    if looks != [] {
      var before, last := looks[..|looks| - 1], looks[|looks| - 1];
      LastVersionIsLastKept(h, before, versionEvery);
      var was := KeepAll(h, before, versionEvery);
      NamedMore(Some(was.lastVersionAt), Some(h.lastVersionAt), KeptTimes(h, before, versionEvery),
                if Keep(was, last, versionEvery).1.Some? then Some(last.now) else None);
    }
  }

  /**
   * A save that is not of a large deletion keeps the document as it is if and only if the interval has passed since a
   * version was last kept, of either kind; `at` is when that was, or what the run began with.
   */
  lemma {:induction false} HourlyIff(h: History, looks: seq<Look>, look: Look, versionEvery: int, at: int)
    requires LastNamed(Some(at), Some(h.lastVersionAt), KeptTimes(h, looks, versionEvery))
    ensures var kept := Keep(KeepAll(h, looks, versionEvery), look, versionEvery).1;
            (kept.Some? ==> kept.value.reason.Hourly?) ==>
              kept == if look.now - at >= versionEvery then Some(Version(look.doc, Hourly)) else None
  {
    LastVersionIsLastKept(h, looks, versionEvery);
    OneNamed(Some(at), Some(KeepAll(h, looks, versionEvery).lastVersionAt), Some(h.lastVersionAt),
             KeptTimes(h, looks, versionEvery));
  }

  /** So an hourly restore point comes at least the interval after any other, if the clock does not go back. */
  lemma {:induction false} HourlyApart(h: History, looks: seq<Look>, look: Look, versionEvery: int, i: nat)
    requires InOrder(looks + [look]) && i < |looks| && KeptTimes(h, looks, versionEvery)[i].Some?
    requires Keep(KeepAll(h, looks, versionEvery), look, versionEvery).1 == Some(Version(look.doc, Hourly))
    ensures look.now - looks[i].now >= versionEvery
  {
    var times := KeptTimes(h, looks, versionEvery);
    LastVersionIsLastKept(h, looks, versionEvery);
    HourlyIff(h, looks, look, versionEvery, KeepAll(h, looks, versionEvery).lastVersionAt);
    var k :| 0 <= k < |times| && times[k].Some? && Some(KeepAll(h, looks, versionEvery).lastVersionAt) == times[k]
             && forall l | k < l < |times| :: times[l].None?;
    KeptAtLook(h, looks, versionEvery, k);
    assert i <= k && (looks + [look])[i] == looks[i] && (looks + [look])[k] == looks[k];
  }

  lemma {:induction false} KeptAtLook(h: History, looks: seq<Look>, versionEvery: int, k: nat)
    requires k < |looks| && KeptTimes(h, looks, versionEvery)[k].Some?
    ensures KeptTimes(h, looks, versionEvery)[k] == Some(looks[k].now)
    decreases |looks|
  {
    if k < |looks| - 1 {
      KeptAtLook(h, looks[..|looks| - 1], versionEvery, k);
    }
  }

  /**
   * Growth from elsewhere is not covered until this replica saves: a document grown from 500 to 2000 by other replicas,
   * then cut back to 500 here, is not kept. `CoveredIffLastLook` says so of any document.
   */
  lemma {:induction false} RemoteGrowthIsNotCovered(mine: Ops, theirs: Ops, ours: Ops)
    ensures var loaded := Look(mine, 500, 0);
            var grown, cut := Look(mine + theirs, 2000, 1000), Look(mine + theirs + ours, 500, 2000);
            && LargeDeletion(grown.size, cut.size)
            && Keep(Loaded(loaded, 0), cut, 3_600_000).1 == None
            && Keep(Keep(Loaded(loaded, 0), grown, 3_600_000).0, cut, 3_600_000).1
                 == Some(Version(mine + theirs, BeforeLargeDeletion))
  {
  }
}
