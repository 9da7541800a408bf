/**
 * Packing a transcript's spoken lines into passages (`splitTranscript`, gateway/src/ask/passages.ts). Lines come
 * already read: when each is spoken, and its text.
 */
module TranscriptPassages {
  import opened Sequences

  const TARGET_CHARS := 700

  datatype Line = Line(at: nat, text: string)
  datatype Passage = Passage(body: string, startS: nat)

  /** The lines of a passage; `carried` when the first repeats the passage before. */
  datatype Group = Group(lines: seq<Line>, carried: bool)

  function Length(lines: seq<Line>): nat {
    if lines == [] then 0 else Length(lines[..|lines| - 1]) + |lines[|lines| - 1].text| + 1
  }

  /** Texts, with a space between. */
  function JoinTexts(lines: seq<Line>): string {
    if lines == [] then "" else if |lines| == 1 then lines[0].text
    else JoinTexts(lines[..|lines| - 1]) + " " + lines[|lines| - 1].text
  }

  lemma {:induction false} JoinedLength(lines: seq<Line>)
    requires lines != []
    ensures |JoinTexts(lines)| + 1 == Length(lines)
    decreases |lines|
  {
    if |lines| > 1 {
      JoinedLength(lines[..|lines| - 1]);
    } else {
      assert lines[..0] == [];
    }
  }

  /** The texts of the lines stand in the body one after the other, a space between. */
  ghost predicate Says(body: string, lines: seq<Line>) {
    && |body| + 1 == Length(lines)
    && forall k | 0 <= k < |lines| :: SaysAt(body, lines, k)
  }

  /** Line `k` stands behind those before it. */
  predicate SaysAt(body: string, lines: seq<Line>, k: nat)
    requires k < |lines|
  {
    var from := Length(lines[..k]);
    && from + |lines[k].text| <= |body| && body[from..from + |lines[k].text|] == lines[k].text
    && (k > 0 ==> from > 0 && body[from - 1] == ' ')
  }

  lemma {:induction false} JoinedSays(lines: seq<Line>)
    requires lines != []
    ensures Says(JoinTexts(lines), lines)
    decreases |lines|
  {
    JoinedLength(lines);
    var init, last := lines[..|lines| - 1], lines[|lines| - 1];
    if init == [] {
      assert lines[..0] == [];
    } else {
      JoinedSays(init);
      JoinedLength(init);
      forall k | 0 <= k < |lines| ensures SaysAt(JoinTexts(lines), lines, k) {
        assert lines[..k] == init[..k];
        assert k == |init| ==> init[..k] == init;
        assert k < |init| ==> SaysAt(JoinTexts(init), init, k);
      }
    }
  }

  /** What a passage says that the one before did not. */
  function New(g: Group): seq<Line> { if g.carried && g.lines != [] then g.lines[1..] else g.lines }

  function AllNew(groups: seq<Group>): seq<Line>
    decreases |groups|
  {
    if groups == [] then [] else AllNew(groups[..|groups| - 1]) + New(groups[|groups| - 1])
  }

  /** A last line is carried over unless it stands alone or would fill half a passage. */
  predicate Carries(g: Group) {
    |g.lines| > 1 && 2 * |g.lines[|g.lines| - 1].text| < TARGET_CHARS
  }

  /** No room for the next line after these. */
  predicate Full(lines: seq<Line>, next: Line) { Length(lines) + |next.text| > TARGET_CHARS }

  /** Longer than the target only where one new line makes it so. */
  predicate Sized(g: Group) { New(g) != [] && (|New(g)| > 1 ==> Length(g.lines) - 1 <= TARGET_CHARS) }

  /** How one passage follows another. */
  predicate Follows(g: Group, h: Group) {
    && (h.carried <==> |g.lines| > 1 && |g.lines[|g.lines| - 1].text| + |g.lines[|g.lines| - 1].text| < TARGET_CHARS)
    && (h.carried ==> h.lines != [] && h.lines[0] == g.lines[|g.lines| - 1])
    && New(h) != [] && Full(g.lines, New(h)[0])
  }

  ghost predicate Packed(groups: seq<Group>) {
    && (groups != [] ==> !groups[0].carried)
    && (forall i | 0 <= i < |groups| :: Sized(groups[i]))
    && (forall i, j | 0 <= i < |groups| - 1 && j == i + 1 :: Follows(groups[i], groups[j]))
  }

  function AsPassage(g: Group): Passage
    requires g.lines != []
  {
    Passage(JoinTexts(g.lines), g.lines[0].at)
  }

  ghost predicate Shows(passages: seq<Passage>, groups: seq<Group>) {
    && |passages| == |groups|
    && forall i | 0 <= i < |groups| :: groups[i].lines != [] && passages[i] == AsPassage(groups[i])
  }

  lemma {:induction false} PackedMore(groups: seq<Group>, g: Group)
    requires Packed(groups) && Sized(g)
    requires if groups == [] then !g.carried else Follows(groups[|groups| - 1], g)
    ensures Packed(groups + [g])
  {
    var all := groups + [g];
    forall i, j | 0 <= i < |all| - 1 && j == i + 1 ensures Follows(all[i], all[j]) {
      assert j < |groups| ==> all[j] == groups[j];
    }
  }

  lemma {:induction false} AllNewMore(groups: seq<Group>, g: Group)
    ensures AllNew(groups + [g]) == AllNew(groups) + New(g)
  {
    assert (groups + [g])[..|groups|] == groups;
  }

  /** The passage being filled: how it began, and that it is not too long. */
  ghost predicate Filling(groups: seq<Group>, current: Group) {
    && Packed(groups)
    && (if groups == [] then !current.carried else current.carried <==> Carries(groups[|groups| - 1]))
    && (current.carried ==>
        groups != [] && current.lines != []
            && current.lines[0] == groups[|groups| - 1].lines[|groups[|groups| - 1].lines| - 1])
    && (New(current) != [] ==> Sized(current) && (groups != [] ==> Full(groups[|groups| - 1].lines, New(current)[0])))
  }

  lemma {:induction false} OneMoreLine(groups: seq<Group>, current: Group, line: Line)
    requires Filling(groups, current)
    requires New(current) != [] ==> !Full(current.lines, line)
    requires New(current) == [] && groups != [] ==> Full(groups[|groups| - 1].lines, line)
    ensures Filling(groups, Group(current.lines + [line], current.carried))
    ensures New(Group(current.lines + [line], current.carried)) == New(current) + [line]
  {
    var longer := current.lines + [line];
    assert longer[..|current.lines|] == current.lines;
    assert New(Group(longer, current.carried)) == New(current) + [line];
  }

  /** After a passage is closed: the next begins with its last line, or with nothing. */
  function Carry(g: Group): Group
    requires g.lines != []
  {
    if Carries(g) then Group([g.lines[|g.lines| - 1]], true) else Group([], false)
  }

  /**
   * `splitTranscript`. Dropping each carried line gives back every spoken line, once and in order; a passage begins
   * with the last line of the one before exactly when that is short and did not stand alone; every passage adds a
   * line; none closes while the next line fits; and a passage is longer than the target only if one line made it so.
   * Its body says its lines in order, and it starts when the first of them is spoken.
   */
  method SplitTranscript(lines: seq<Line>) returns (passages: seq<Passage>, ghost groups: seq<Group>)
    ensures Shows(passages, groups) && Packed(groups) && AllNew(groups) == lines
    ensures forall i | 0 <= i < |passages| && |passages[i].body| > TARGET_CHARS :: |New(groups[i])| == 1
    ensures lines != [] ==> passages != []
    ensures forall i | 0 <= i < |passages| ::
              groups[i].lines != [] && passages[i].startS == groups[i].lines[0].at
              && Says(passages[i].body, groups[i].lines)
  {
    var current;
    ghost var group;
    passages, current, groups, group := Pack(lines);
    if |current| > 0 {
      Finish(passages, groups, group);
      passages, groups := passages + [Passage(JoinTexts(current), current[0].at)], groups + [group];
    }
    LongOnlyByOne(passages, groups);
    forall i | 0 <= i < |passages| ensures Says(passages[i].body, groups[i].lines) {
      JoinedSays(groups[i].lines);
    }
  }

  /** The loop over the lines: the passages closed, and what is left to close. */
  method Pack(lines: seq<Line>) returns (passages: seq<Passage>, current: seq<Line>, ghost groups: seq<Group>,
                                         ghost group: Group)
    ensures Shows(passages, groups) && Spoken(groups, group, lines) && group.lines == current
  {
    passages, current, groups, group := [], [], [], Group([], false);
    for k := 0 to |lines|
      invariant Shows(passages, groups) && Spoken(groups, group, lines[..k]) && group.lines == current
    {
      TakeOneMore(lines, k);
      passages, current, groups, group := MakeRoom(passages, current, lines[k], groups, group, lines[..k]);
      current := current + [lines[k]];
      group := Group(current, group.carried);
    }
    assert lines[..|lines|] == lines;
  }

  /** The passages closed and the one being filled hold what was spoken so far. */
  ghost predicate Spoken(groups: seq<Group>, group: Group, lines: seq<Line>) {
    && Filling(groups, group) && AllNew(groups) + New(group) == lines
    && if lines != [] then New(group) != [] else group.lines == [] && groups == []
  }

  /** Closes the passage when the next line does not fit, and begins another, so that the line can be added. */
  method MakeRoom(passages: seq<Passage>, current: seq<Line>, line: Line, ghost groups: seq<Group>, ghost group: Group,
                  ghost before: seq<Line>)
    returns (closed: seq<Passage>, left: seq<Line>, ghost closedGroups: seq<Group>, ghost leftGroup: Group)
    requires Shows(passages, groups) && Spoken(groups, group, before) && group.lines == current
    ensures Shows(closed, closedGroups) && leftGroup.lines == left
    ensures Spoken(closedGroups, Group(left + [line], leftGroup.carried), before + [line])
  {
    closed, left, closedGroups, leftGroup := passages, current, groups, group;
    if |current| > 0 && Length(current) + |line.text| > TARGET_CHARS {
      Close(passages, groups, group, line);
      closed, closedGroups := passages + [Passage(JoinTexts(current), current[0].at)], groups + [group];
      var last := current[|current| - 1];
      leftGroup := Carry(group);
      left := if |current| > 1 && 2 * |last.text| < TARGET_CHARS then [last] else [];
    }
    OneMoreLine(closedGroups, leftGroup, line);
    Assoc(AllNew(closedGroups), New(leftGroup), [line]);
  }

  lemma {:induction false} Finish(passages: seq<Passage>, groups: seq<Group>, group: Group)
    requires Shows(passages, groups) && Filling(groups, group) && New(group) != []
    ensures Shows(passages + [AsPassage(group)], groups + [group]) && Packed(groups + [group])
    ensures AllNew(groups + [group]) == AllNew(groups) + New(group)
  {
    PackedMore(groups, group);
    AllNewMore(groups, group);
  }

  /** Closing a passage that has no room for the line, and beginning the next. */
  lemma {:induction false} Close(passages: seq<Passage>, groups: seq<Group>, group: Group, line: Line)
    requires Shows(passages, groups) && Filling(groups, group) && New(group) != [] && Full(group.lines, line)
    ensures Shows(passages + [AsPassage(group)], groups + [group]) && Filling(groups + [group], Carry(group))
    ensures New(Carry(group)) == [] && AllNew(groups + [group]) + New(Carry(group)) == AllNew(groups) + New(group)
  {
    Finish(passages, groups, group);
    assert New(Carry(group)) == [];
  }

  lemma {:induction false} LongOnlyByOne(passages: seq<Passage>, groups: seq<Group>)
    requires Shows(passages, groups) && Packed(groups)
    ensures forall i | 0 <= i < |passages| && |passages[i].body| > TARGET_CHARS :: |New(groups[i])| == 1
  {
    forall i | 0 <= i < |passages| && |passages[i].body| > TARGET_CHARS ensures |New(groups[i])| == 1 {
      JoinedLength(groups[i].lines);
      assert Sized(groups[i]);
    }
  }
}
