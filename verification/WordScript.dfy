/**
 * The word-level diff of client/src/lib/diff.ts. A text enters as its tokens, whose concatenation it is; `key` and
 * `isSpace` are any functions of a token.
 */
module WordScript {
  import opened Sequences
  import opened EditScript

  /** Above this many table cells a stretch is marked replaced instead of diffed. */
  const MAX_CELLS := 2_500_000

  /** Whether a trimmed middle is too large to compare. */
  predicate PastCap(start: nat, endA: nat, endB: nat)
    requires start <= endA && start <= endB
  {
    (endA - start) * (endB - start) > MAX_CELLS
  }

  function SameWord(a: seq<string>, b: seq<string>, key: string -> string): Same {
    (i: nat, j: nat) => i < |a| && j < |b| && key(a[i]) == key(b[j])
  }

  // ---- what a script shows -----------------------------------------------------------

  function At(texts: seq<string>, i: nat): string { if i < |texts| then texts[i] else "" }

  /** Matched pairs show the right side's text: it is the text being displayed. */
  function RenderStep(parts: seq<Part>, step: Step, a: seq<string>, b: seq<string>): seq<Part> {
    match step
    case Both(_, j) => Push(parts, Equal, At(b, j))
    case Ins(j) => Push(parts, Insert, At(b, j))
    case Del(i) => Push(parts, Delete, At(a, i))
  }

  function Render(parts: seq<Part>, script: seq<Step>, a: seq<string>, b: seq<string>): seq<Part>
    decreases script
  {
    if script == [] then parts else Render(RenderStep(parts, script[0], a, b), script[1..], a, b)
  }

  /** The left side as a reader would recover it from the script: matched tokens as the right side spells them. */
  function Reading(script: seq<Step>, a: seq<string>, b: seq<string>): seq<string> {
    if script == [] then []
    else (match script[0]
          case Both(_, j) => [At(b, j)]
          case Ins(_) => []
          case Del(i) => [At(a, i)]) + Reading(script[1..], a, b)
  }

  lemma {:induction false} RenderAppend(parts: seq<Part>, s: seq<Step>, t: seq<Step>, a: seq<string>, b: seq<string>)
    ensures Render(parts, s + t, a, b) == Render(Render(parts, s, a, b), t, a, b)
    decreases s
  {
    if s == [] {
      assert s + t == t;
    } else {
      RenderAppend(RenderStep(parts, s[0], a, b), s[1..], t, a, b);
      assert (s + t)[1..] == s[1..] + t;
    }
  }

  lemma {:induction false} JoinSplit(texts: seq<string>, i: nat, n: nat)
    requires i < n <= |texts|
    ensures Join(texts[i..n]) == texts[i] + Join(texts[i + 1..n])
  {
    assert texts[i..n][1..] == texts[i + 1..n];
  }

  /** Texts pushed one by one, all with the same op. */
  ghost function PushAll(parts: seq<Part>, op: Op, texts: seq<string>): seq<Part>
    decreases texts
  {
    if texts == [] then parts else PushAll(Push(parts, op, texts[0]), op, texts[1..])
  }

  lemma {:induction false} PushAllIsPush(parts: seq<Part>, op: Op, texts: seq<string>)
    ensures PushAll(parts, op, texts) == Push(parts, op, Join(texts))
    decreases texts
  {
    if texts != [] {
      PushAllIsPush(Push(parts, op, texts[0]), op, texts[1..]);
      PushTwice(parts, op, texts[0], Join(texts[1..]));
    }
  }

  lemma {:induction false} PairsAreRun(parts: seq<Part>, i: nat, j: nat, n: nat, a: seq<string>, b: seq<string>)
    requires j + n <= |b|
    ensures Render(parts, Pairs(i, j, n), a, b) == PushAll(parts, Equal, b[j..j + n])
    decreases n
  {
    if n > 0 {
      assert Pairs(i, j, n)[1..] == Pairs(i + 1, j + 1, n - 1);
      assert b[j..j + n][1..] == b[j + 1..j + n];
      PairsAreRun(Push(parts, Equal, b[j]), i + 1, j + 1, n - 1, a, b);
    }
  }

  lemma {:induction false} DelsAreRun(parts: seq<Part>, i: nat, n: nat, a: seq<string>, b: seq<string>)
    requires i + n <= |a|
    ensures Render(parts, Dels(i, n), a, b) == PushAll(parts, Delete, a[i..i + n])
    decreases n
  {
    if n > 0 {
      assert Dels(i, n)[1..] == Dels(i + 1, n - 1);
      assert a[i..i + n][1..] == a[i + 1..i + n];
      DelsAreRun(Push(parts, Delete, a[i]), i + 1, n - 1, a, b);
    }
  }

  lemma {:induction false} InssAreRun(parts: seq<Part>, j: nat, n: nat, a: seq<string>, b: seq<string>)
    requires j + n <= |b|
    ensures Render(parts, Inss(j, n), a, b) == PushAll(parts, Insert, b[j..j + n])
    decreases n
  {
    if n > 0 {
      assert Inss(j, n)[1..] == Inss(j + 1, n - 1);
      assert b[j..j + n][1..] == b[j + 1..j + n];
      InssAreRun(Push(parts, Insert, b[j]), j + 1, n - 1, a, b);
    }
  }

  /** What one step adds to the text shown without its insertions or deletions. */
  lemma {:induction false} StepText(parts: seq<Part>, step: Step, a: seq<string>, b: seq<string>)
    ensures Applied(RenderStep(parts, step, a, b)) == Applied(parts) + if step.Del? then "" else At(b, step.j)
    ensures Reverted(RenderStep(parts, step, a, b)) == Reverted(parts) + Join(Reading([step], a, b))
  {
    match step
    case Both(_, j) =>
      PushText(parts, Equal, At(b, j), Delete);
      PushText(parts, Equal, At(b, j), Insert);
    case Ins(j) =>
      PushText(parts, Insert, At(b, j), Delete);
      PushText(parts, Insert, At(b, j), Insert);
    case Del(i) =>
      PushText(parts, Delete, At(a, i), Delete);
      PushText(parts, Delete, At(a, i), Insert);
  }

  /** First round trip: what a script shows, without its deletions, is the right side. */
  lemma {:induction false} RenderApplied(parts: seq<Part>, s: seq<Step>, a: seq<string>, b: seq<string>, same: Same,
                                         i: nat, j: nat)
    requires i <= |a| && j <= |b| && Covers(s, same, i, |a|, j, |b|)
    ensures Applied(Render(parts, s, a, b)) == Applied(parts) + Join(b[j..])
    decreases s
  {
    if s != [] {
      var next := RenderStep(parts, s[0], a, b);
      StepText(parts, s[0], a, b);
      var i', j' := if s[0].Ins? then i else i + 1, if s[0].Del? then j else j + 1;
      RenderApplied(next, s[1..], a, b, same, i', j');
      if !s[0].Del? {
        JoinSplit(b, j, |b|);
        Assoc(Applied(parts), b[j], Join(b[j + 1..]));
      }
    }
  }

  /** Second round trip: without its insertions it is the left side, as the script reads it. */
  lemma {:induction false} RenderReverted(parts: seq<Part>, s: seq<Step>, a: seq<string>, b: seq<string>)
    ensures Reverted(Render(parts, s, a, b)) == Reverted(parts) + Join(Reading(s, a, b))
    decreases s
  {
    if s != [] {
      StepText(parts, s[0], a, b);
      RenderReverted(RenderStep(parts, s[0], a, b), s[1..], a, b);
      assert Reading(s, a, b) == Reading([s[0]], a, b) + Reading(s[1..], a, b);
      JoinAppend(Reading([s[0]], a, b), Reading(s[1..], a, b));
      Assoc(Reverted(parts), Join(Reading([s[0]], a, b)), Join(Reading(s[1..], a, b)));
    }
  }

  /** Token for token, the reading is the left side up to `key`. */
  lemma {:induction false} ReadingMatches(s: seq<Step>, a: seq<string>, b: seq<string>, key: string -> string, i: nat,
                                          j: nat)
    requires i <= |a| && j <= |b| && Covers(s, SameWord(a, b, key), i, |a|, j, |b|)
    ensures |Reading(s, a, b)| == |a| - i
    ensures forall k | i <= k < |a| :: key(Reading(s, a, b)[k - i]) == key(a[k])
    decreases s
  {
    if s != [] {
      var rest := Reading(s[1..], a, b);
      match s[0]
      case Both(_, _) =>
        ReadingMatches(s[1..], a, b, key, i + 1, j + 1);
        assert Reading(s, a, b) == [b[j]] + rest;
      case Ins(_) =>
        ReadingMatches(s[1..], a, b, key, i, j + 1);
        assert Reading(s, a, b) == rest;
      case Del(_) =>
        ReadingMatches(s[1..], a, b, key, i + 1, j);
        assert Reading(s, a, b) == [a[i]] + rest;
    }
  }

  /** What pushing maintains: no empty part, and neighbours of different kinds. */
  predicate Merged(parts: seq<Part>) {
    && (forall i | 0 <= i < |parts| :: parts[i].text != "")
    && (forall i, j | 0 <= i < |parts| - 1 && j == i + 1 :: parts[i].op != parts[j].op)
  }

  lemma {:induction false} RenderMerged(parts: seq<Part>, s: seq<Step>, a: seq<string>, b: seq<string>)
    requires Merged(parts)
    ensures Merged(Render(parts, s, a, b))
    decreases s
  {
    if s != [] {
      RenderMerged(RenderStep(parts, s[0], a, b), s[1..], a, b);
    }
  }

  // ---- the table ----------------------------------------------------------------------

  /** Where row i of a table `width` wide starts in the flattened array: `i * width`, added up (`RowIsProduct`). */
  function Row(i: nat, width: nat): nat { if i == 0 then 0 else Row(i - 1, width) + width }

  function Cell(i: nat, j: nat, width: nat): nat { Row(i, width) + j }

  lemma {:induction false} RowIsProduct(i: nat, width: nat)
    ensures Row(i, width) == i * width
  {
    if i > 0 {
      RowIsProduct(i - 1, width);
    }
  }

  lemma {:induction false} RowsInOrder(i: nat, i': nat, width: nat)
    requires i < i'
    ensures Row(i, width) + width <= Row(i', width)
    decreases i'
  {
    if i < i' - 1 {
      RowsInOrder(i, i' - 1, width);
    }
  }

  lemma {:induction false} CellsApart(i: nat, j: nat, i': nat, j': nat, width: nat)
    requires j < width && j' < width && (i != i' || j != j')
    ensures Cell(i, j, width) != Cell(i', j', width)
  {
    if i < i' {
      RowsInOrder(i, i', width);
    } else if i' < i {
      RowsInOrder(i', i, width);
    }
  }

  /** What cell (x, y) of the table for `n` rows and `m` columns should hold. */
  function Wanted(same: Same, startA: nat, n: nat, startB: nat, m: nat, x: nat, y: nat): nat {
    Lcs(same, startA + x, startA + n, startB + y, startB + m)
  }

  /** Every cell from row `i` on, and in row i - 1 from column `j` on, holds what it should. */
  ghost predicate Filled(lengths: seq<nat>, same: Same, startA: nat, n: nat, startB: nat, m: nat, width: nat, i: nat,
                         j: nat) {
    && |lengths| == Row(n + 1, width)
    && forall x, y {:trigger Cell(x, y, width)} | 0 <= x <= n && 0 <= y <= m ::
         Cell(x, y, width) < |lengths| &&
         (x >= i || (x + 1 == i && y >= j) || x == n || y == m ==>
           lengths[Cell(x, y, width)] == Wanted(same, startA, n, startB, m, x, y))
  }

  /** `lengths[i * width + j]` is the longest common subsequence from (i, j) on. */
  method FillTable(same: Same, startA: nat, n: nat, startB: nat, m: nat, width: nat) returns (table: seq<nat>)
    requires width == m + 1
    ensures Filled(table, same, startA, n, startB, m, width, 0, width)
  {
    var lengths := new nat[Row(n + 1, width)](_ => 0);
    FilledAtFirst(lengths[..], same, startA, n, startB, m, width);
    var i: nat := n;
    while i > 0
      invariant i <= n
      invariant Filled(lengths[..], same, startA, n, startB, m, width, i, width)
    {
      i := i - 1;
      FillRow(lengths, same, startA, n, startB, m, width, i);
    }
    table := lengths[..];
  }

  /** The inner loop: row `i` from its last column to its first. */
  method FillRow(lengths: array<nat>, same: Same, startA: nat, n: nat, startB: nat, m: nat, width: nat, i: nat)
    requires width == m + 1 && i < n
    requires Filled(lengths[..], same, startA, n, startB, m, width, i + 1, width)
    modifies lengths
    ensures Filled(lengths[..], same, startA, n, startB, m, width, i, width)
  {
    var j: nat := m;
    while j > 0
      invariant j <= m
      invariant Filled(lengths[..], same, startA, n, startB, m, width, i + 1, j)
    {
      j := j - 1;
      ghost var was := lengths[..];
      var diagonal, down, right :=
        lengths[Cell(i + 1, j + 1, width)], lengths[Cell(i + 1, j, width)], lengths[Cell(i, j + 1, width)];
      lengths[Cell(i, j, width)] :=
        if same(startA + i, startB + j) then diagonal + 1 else if down >= right then down else right;
      FilledStep(was, lengths[..], same, startA, n, startB, m, width, i, j);
    }
  }

  lemma {:induction false} FilledAtFirst(zeros: seq<nat>, same: Same, startA: nat, n: nat, startB: nat, m: nat,
                                         width: nat)
    requires width == m + 1 && |zeros| == Row(n + 1, width) && forall k | 0 <= k < |zeros| :: zeros[k] == 0
    ensures Filled(zeros, same, startA, n, startB, m, width, n, width)
  {
    forall x, y {:trigger Cell(x, y, width)} | 0 <= x <= n && 0 <= y <= m ensures Cell(x, y, width) < |zeros| {
      RowsInOrder(x, n + 1, width);
    }
  }

  lemma {:induction false} FilledStep(was: seq<nat>, now: seq<nat>, same: Same, startA: nat, n: nat, startB: nat,
                                      m: nat,
                                      width: nat, i: nat, j: nat)
    requires i < n && j < m && width == m + 1
    requires Filled(was, same, startA, n, startB, m, width, i + 1, j + 1)
    requires Cell(i, j, width) < |was|
    requires now == was[Cell(i, j, width) := Wanted(same, startA, n, startB, m, i, j)]
    ensures Filled(now, same, startA, n, startB, m, width, i + 1, j)
  {
    forall x, y {:trigger Cell(x, y, width)} | 0 <= x <= n && 0 <= y <= m
      ensures Cell(x, y, width) < |now|
      ensures x >= i + 1 || (x == i && y >= j) || x == n || y == m ==>
                now[Cell(x, y, width)] == Wanted(same, startA, n, startB, m, x, y) {
      if x != i || y != j {
        CellsApart(x, y, i, j, width);
        assert now[Cell(x, y, width)] == was[Cell(x, y, width)];
      }
    }
  }

  // ---- the diff -----------------------------------------------------------------------

  /** The longest common prefix and, of what is left, the longest common suffix. */
  method Trim(a: seq<string>, b: seq<string>, key: string -> string) returns (start: nat, endA: nat, endB: nat)
    ensures Trimmed(SameWord(a, b, key), start, endA, |a|, endB, |b|)
  {
    ghost var same := SameWord(a, b, key);
    start := 0;
    while start < |a| && start < |b| && key(a[start]) == key(b[start])
      invariant start <= |a| && start <= |b|
      invariant Diagonal(same, 0, 0, start)
    {
      start := start + 1;
    }
    endA, endB := |a|, |b|;
    while endA > start && endB > start && key(a[endA - 1]) == key(b[endB - 1])
      invariant start <= endA <= |a| && start <= endB <= |b| && |a| - endA == |b| - endB
      invariant Diagonal(same, endA, endB, |a| - endA)
    {
      endA, endB := endA - 1, endB - 1;
    }
  }

  /** Everything `diffWords` does before `tidy`. */
  method Compare(a: seq<string>, b: seq<string>, key: string -> string)
    returns (parts: seq<Part>, ghost start: nat, ghost endA: nat, ghost endB: nat)
    ensures Trimmed(SameWord(a, b, key), start, endA, |a|, endB, |b|)
    ensures parts == Render([], Script(SameWord(a, b, key), start, endA, |a|, endB, PastCap(start, endA, endB)), a, b)
  {
    var s, eA, eB := Trim(a, b, key);
    start, endA, endB := s, eA, eB;
    var same := SameWord(a, b, key);
    parts := Push([], Equal, Join(b[..s]));
    parts := CompareMiddle(parts, a, b, same, s, eA, eB);
    parts := Push(parts, Equal, Join(b[eB..]));
    RenderScript(a, b, same, s, eA, eB, PastCap(s, eA, eB));
  }

  lemma {:induction false} RenderScript(a: seq<string>, b: seq<string>, same: Same, start: nat, endA: nat, endB: nat,
                                        past: bool)
    requires start <= endA <= |a| && start <= endB <= |b| && |a| - endA == |b| - endB
    ensures Render([], Script(same, start, endA, |a|, endB, past), a, b)
         == Push(Render(Push([], Equal, Join(b[..start])), Middle(same, start, endA, endB, past), a, b),
                 Equal, Join(b[endB..]))
  {
    var middle, suffix := Middle(same, start, endA, endB, past), Pairs(endA, endB, |a| - endA);
    RenderAppend([], Pairs(0, 0, start) + middle, suffix, a, b);
    RenderPrefix(a, b, start, middle);
    RenderSuffix(Render(Push([], Equal, Join(b[..start])), middle, a, b), a, b, endA, endB);
  }

  lemma {:induction false} RenderSuffix(shown: seq<Part>, a: seq<string>, b: seq<string>, endA: nat, endB: nat)
    requires endA <= |a| && endB <= |b| && |a| - endA == |b| - endB
    ensures Render(shown, Pairs(endA, endB, |a| - endA), a, b) == Push(shown, Equal, Join(b[endB..]))
  {
    PairsAreRun(shown, endA, endB, |a| - endA, a, b);
    PushAllIsPush(shown, Equal, b[endB..]);
    assert b[endB..endB + (|a| - endA)] == b[endB..];
  }

  lemma {:induction false} RenderPrefix(a: seq<string>, b: seq<string>, start: nat, middle: seq<Step>)
    requires start <= |a| && start <= |b|
    ensures Render([], Pairs(0, 0, start) + middle, a, b) == Render(Push([], Equal, Join(b[..start])), middle, a, b)
  {
    RenderAppend([], Pairs(0, 0, start), middle, a, b);
    PairsAreRun([], 0, 0, start, a, b);
    assert b[0..start] == b[..start];
    PushAllIsPush([], Equal, b[..start]);
  }

  /** The part between prefix and suffix: replaced outright past the cap, else walked through its table. */
  method CompareMiddle(before: seq<Part>, a: seq<string>, b: seq<string>, same: Same, start: nat, endA: nat, endB: nat)
    returns (parts: seq<Part>)
    requires start <= endA <= |a| && start <= endB <= |b|
    ensures parts == Render(before, Middle(same, start, endA, endB, PastCap(start, endA, endB)), a, b)
  {
    parts := before;
    var n, m := endA - start, endB - start;
    var past := n * m > MAX_CELLS;
    assert past == PastCap(start, endA, endB);
    ghost var middle := Middle(same, start, endA, endB, past);
    if past {
      assert middle == Dels(start, n) + Inss(start, m);
      parts := Push(parts, Delete, Join(a[start..endA]));
      parts := Push(parts, Insert, Join(b[start..endB]));
      RenderReplaced(before, start, n, m, a, b);
      return;
    }
    assert middle == Walk(same, start, start + n, start, start + m);
    if n > 0 || m > 0 {
      parts := Backtrack(parts, a, b, same, start, n, m);
    }
  }

  lemma {:induction false} RenderReplaced(before: seq<Part>, start: nat, n: nat, m: nat, a: seq<string>, b: seq<string>)
    requires start + n <= |a| && start + m <= |b|
    ensures Render(before, Dels(start, n) + Inss(start, m), a, b)
         == Push(Push(before, Delete, Join(a[start..start + n])), Insert, Join(b[start..start + m]))
  {
    RenderAppend(before, Dels(start, n), Inss(start, m), a, b);
    DelsAreRun(before, start, n, a, b);
    PushAllIsPush(before, Delete, a[start..start + n]);
    var deleted := Push(before, Delete, Join(a[start..start + n]));
    InssAreRun(deleted, start, m, a, b);
    PushAllIsPush(deleted, Insert, b[start..start + m]);
  }

  /** Fills the table for a trimmed middle and walks it from the start. */
  method Backtrack(before: seq<Part>, a: seq<string>, b: seq<string>, same: Same, start: nat, n: nat, m: nat)
    returns (parts: seq<Part>)
    requires start + n <= |a| && start + m <= |b|
    ensures parts == Render(before, Walk(same, start, start + n, start, start + m), a, b)
  {
    var width := m + 1;
    var lengths := FillTable(same, start, n, start, m, width);
    ghost var shown := ShownAs(before, same, start, n, m, 0, 0, a, b);
    parts := before;
    var i: nat, j: nat := 0, 0;
    while i < n || j < m
      invariant i <= n && j <= m
      invariant ShownAs(parts, same, start, n, m, i, j, a, b) == shown
      decreases n - i + m - j
    {
      WalkStep(lengths, same, start, n, m, width, i, j, parts, a, b);
      if i < n && j < m && same(start + i, start + j) {
        parts := Push(parts, Equal, b[start + j]);
        i, j := i + 1, j + 1;
      } else if j < m && (i >= n || lengths[Cell(i, j + 1, width)] >= lengths[Cell(i + 1, j, width)]) {
        parts := Push(parts, Insert, b[start + j]);
        j := j + 1;
      } else {
        parts := Push(parts, Delete, a[start + i]);
        i := i + 1;
      }
    }
    assert parts == shown;
  }

  /** The parts so far, with the rest of the walk from (i, j) shown after them. */
  ghost function ShownAs(parts: seq<Part>, same: Same, start: nat, n: nat, m: nat, i: nat, j: nat, a: seq<string>,
                         b: seq<string>): seq<Part>
    requires i <= n && j <= m
  {
    Render(parts, Walk(same, start + i, start + n, start + j, start + m), a, b)
  }

  /** The walk's next step, read off a filled table. */
  lemma {:induction false} WalkStep(table: seq<nat>, same: Same, start: nat, n: nat, m: nat, width: nat, i: nat, j: nat,
                                    parts: seq<Part>, a: seq<string>, b: seq<string>)
    requires Filled(table, same, start, n, start, m, width, 0, width) && width == m + 1
    requires i <= n && j <= m && (i < n || j < m) && start + n <= |a| && start + m <= |b|
    ensures i < n && j < m ==> Cell(i, j + 1, width) < |table| && Cell(i + 1, j, width) < |table|
    ensures ShownAs(parts, same, start, n, m, i, j, a, b) ==
            if i < n && j < m && same(start + i, start + j) then
              ShownAs(Push(parts, Equal, b[start + j]), same, start, n, m, i + 1, j + 1, a, b)
            else if j < m && (i >= n || table[Cell(i, j + 1, width)] >= table[Cell(i + 1, j, width)]) then
              ShownAs(Push(parts, Insert, b[start + j]), same, start, n, m, i, j + 1, a, b)
            else
              ShownAs(Push(parts, Delete, a[start + i]), same, start, n, m, i + 1, j, a, b)
  {
    var walk := Walk(same, start + i, start + n, start + j, start + m);
    if i < n && j < m && same(start + i, start + j) {
      assert walk[1..] == Walk(same, start + (i + 1), start + n, start + (j + 1), start + m);
    } else {
      if i < n && j < m {
        assert table[Cell(i, j + 1, width)] == Wanted(same, start, n, start, m, i, j + 1);
        assert table[Cell(i + 1, j, width)] == Wanted(same, start, n, start, m, i + 1, j);
      }
      if j < m && (i >= n || table[Cell(i, j + 1, width)] >= table[Cell(i + 1, j, width)]) {
        assert walk[1..] == Walk(same, start + i, start + n, start + (j + 1), start + m);
      } else {
        assert walk[1..] == Walk(same, start + (i + 1), start + n, start + j, start + m);
      }
    }
  }
}
