/**
 * The diff shown to a reader: paragraphs aligned first, word diffs inside each changed stretch
 * (client/src/lib/diff.ts).
 */
module Diff {
  import opened Sequences
  import opened EditScript
  import opened WordScript
  import opened Tidying

  // ---- the word diff ------------------------------------------------------------------

  /** `shown` reads as the tokens `a`, token for token, up to `key`. */
  ghost predicate ReadsAs(shown: string, a: seq<string>, key: string -> string) {
    exists reading: seq<string> :: Join(reading) == shown && Spells(reading, a, key)
  }

  ghost predicate Spells(reading: seq<string>, a: seq<string>, key: string -> string) {
    |reading| == |a| && forall k | 0 <= k < |a| :: key(reading[k]) == key(a[k])
  }

  /**
   * `diffWords`. Nothing of the rewrite is lost, the original comes back up to `key`, the result is readable, and
   * what is marked unchanged before `tidy` is `kept`: as long as any common subsequence of the two key sequences
   * when the trimmed middle is within the cap, and otherwise exactly when no two middle tokens match.
   */
  method DiffWords(a: seq<string>, b: seq<string>, key: string -> string, isSpace: string -> bool)
    returns (parts: seq<Part>, ghost script: seq<Step>)
    ensures Applied(parts) == Join(b)
    ensures ReadsAs(Reverted(parts), a, key)
    ensures Readable(parts) && NoInnerSpace(parts, isSpace)
    ensures Equals(parts) == Unchanged(Render([], script, a, b), |Render([], script, a, b)|, isSpace)
    ensures Covers(script, SameWord(a, b, key), 0, |a|, 0, |b|)
    ensures exists start: nat, endA: nat, endB: nat ::
              Trimmed(SameWord(a, b, key), start, endA, |a|, endB, |b|)
              && script == Script(SameWord(a, b, key), start, endA, |a|, endB, PastCap(start, endA, endB))
    ensures Diffed(parts, a, b, key, isSpace)
  {
    var raw, start, endA, endB := Compare(a, b, key);
    script := Script(SameWord(a, b, key), start, endA, |a|, endB, PastCap(start, endA, endB));
    ScriptCovers(SameWord(a, b, key), start, endA, |a|, endB, |b|, PastCap(start, endA, endB));
    RawRoundTrip(a, b, key, script);
    parts := Tidy(raw, isSpace);
    ScriptAligns(a, b, key, start, endA, endB);
  }

  lemma {:induction false} RawRoundTrip(a: seq<string>, b: seq<string>, key: string -> string, script: seq<Step>)
    requires Covers(script, SameWord(a, b, key), 0, |a|, 0, |b|)
    ensures Merged(Render([], script, a, b))
    ensures Applied(Render([], script, a, b)) == Join(b)
    ensures ReadsAs(Reverted(Render([], script, a, b)), a, key)
  {
    RenderMerged([], script, a, b);
    RenderApplied([], script, a, b, SameWord(a, b, key), 0, 0);
    RenderReverted([], script, a, b);
    ReadingMatches(script, a, b, key, 0, 0);
    assert b[0..] == b;
    var reading := Reading(script, a, b);
    assert Join(reading) == Reverted(Render([], script, a, b)) && Spells(reading, a, key);
  }

  /** A function of a token as a function of its place. */
  ghost function KeyAt(a: seq<string>, key: string -> string): nat -> string {
    (i: nat) => key(At(a, i))
  }

  /** `c` occurs in both key sequences, in order, and has no blank in it. */
  ghost predicate CommonKeys(c: seq<string>, a: seq<string>, b: seq<string>, key: string -> string,
                             blank: string -> bool) {
    Subsequence(c, KeyAt(a, key), 0, |a|, blank) && Subsequence(c, KeyAt(b, key), 0, |b|, blank)
  }

  /** No word is without a key. */
  predicate Never(k: string) { false }

  ghost predicate NoLonger(n: nat, a: seq<string>, b: seq<string>, key: string -> string, blank: string -> bool) {
    forall c | CommonKeys(c, a, b, key, blank) :: |c| <= n
  }

  lemma {:induction false} WordsKeyed(a: seq<string>, b: seq<string>, key: string -> string)
    ensures Keyed(SameWord(a, b, key), |a|, |b|, KeyAt(a, key), KeyAt(b, key), Never)
  {
    forall i: nat, j: nat | i < |a| && j < |b|
      ensures SameWord(a, b, key)(i, j) <==> KeyAt(a, key)(i) == KeyAt(b, key)(j) && !Never(KeyAt(a, key)(i)) {
      assert At(a, i) == a[i] && At(b, j) == b[j];
      assert KeyAt(a, key)(i) == key(At(a, i)) && KeyAt(b, key)(j) == key(At(b, j));
    }
  }

  /** `Lcs` of the two whole sides is what its name says: attained, and never exceeded. */
  lemma {:induction false} LcsOfKeys(same: Same, a: seq<string>, b: seq<string>, key: string -> string,
                                     blank: string -> bool,
                                     n: nat)
    requires Keyed(same, |a|, |b|, KeyAt(a, key), KeyAt(b, key), blank)
    ensures NoLonger(n, a, b, key, blank) <==> n >= Lcs(same, 0, |a|, 0, |b|)
  {
    var longest := KeptKeys(Walk(same, 0, |a|, 0, |b|), KeyAt(a, key));
    WalkCovers(same, 0, |a|, 0, |b|);
    KeptIsCommon(Walk(same, 0, |a|, 0, |b|), same, 0, |a|, 0, |b|, KeyAt(a, key), KeyAt(b, key), blank);
    WalkKeepsLcs(same, 0, |a|, 0, |b|);
    assert CommonKeys(longest, a, b, key, blank);
    forall c | CommonKeys(c, a, b, key, blank) ensures |c| <= Lcs(same, 0, |a|, 0, |b|) {
      LcsIsLongest(c, same, 0, |a|, 0, |b|, KeyAt(a, key), KeyAt(b, key), blank);
    }
  }

  lemma {:induction false} LcsOfWords(a: seq<string>, b: seq<string>, key: string -> string, n: nat)
    ensures NoLonger(n, a, b, key, Never) <==> n >= Lcs(SameWord(a, b, key), 0, |a|, 0, |b|)
  {
    WordsKeyed(a, b, key);
    LcsOfKeys(SameWord(a, b, key), a, b, key, Never, n);
  }

  /**
   * Minimal edit script: the pairs marked equal are a common subsequence of the two key sequences, and none is
   * longer, exactly when the trimmed middle is within the cap or has no matching pair at all.
   */
  lemma {:induction false} MinimalEditScript(a: seq<string>, b: seq<string>, key: string -> string, start: nat,
                                             endA: nat, endB: nat)
    requires Trimmed(SameWord(a, b, key), start, endA, |a|, endB, |b|)
    ensures var script := Script(SameWord(a, b, key), start, endA, |a|, endB, PastCap(start, endA, endB));
            && |KeptKeys(script, KeyAt(a, key))| == Kept(script)
            && CommonKeys(KeptKeys(script, KeyAt(a, key)), a, b, key, Never)
            && (NoLonger(Kept(script), a, b, key, Never)
                <==> !PastCap(start, endA, endB)
                     || (forall x: nat, y: nat | start <= x < endA && start <= y < endB :: key(a[x]) != key(b[y])))
  {
    var same := SameWord(a, b, key);
    var script := Script(same, start, endA, |a|, endB, PastCap(start, endA, endB));
    WordsKeyed(a, b, key);
    ScriptCovers(same, start, endA, |a|, endB, |b|, PastCap(start, endA, endB));
    KeptIsCommon(script, same, 0, |a|, 0, |b|, KeyAt(a, key), KeyAt(b, key), Never);
    ScriptIsMinimal(same, start, endA, |a|, endB, |b|, PastCap(start, endA, endB));
    LcsOfWords(a, b, key, Kept(script));
    NoMatch(a, b, key, start, endA, endB);
  }

  /** `script` keeps the two ends that trimming leaves, pair by pair, and nothing between them. */
  ghost predicate KeepsEnds(script: seq<Step>, start: nat, endA: nat, na: nat, endB: nat) {
    forall i: nat, j: nat :: Both(i, j) in script <==> (i == j < start) || (endA <= i < na && j + endA == i + endB)
  }

  /**
   * `script` goes through both token lists in order, keeps tokens whose keys both have, and no common sequence of keys
   * is longer; unless the middle that trimming leaves is past the cap: then the two ends are what it keeps.
   */
  ghost predicate Aligns(script: seq<Step>, a: seq<string>, b: seq<string>, key: string -> string) {
    && Covers(script, SameWord(a, b, key), 0, |a|, 0, |b|)
    && CommonKeys(KeptKeys(script, KeyAt(a, key)), a, b, key, Never)
    && exists start: nat, endA: nat, endB: nat ::
         && Trimmed(SameWord(a, b, key), start, endA, |a|, endB, |b|)
         && if (endA - start) * (endB - start) > MAX_CELLS then KeepsEnds(script, start, endA, |a|, endB)
            else NoLonger(|KeptKeys(script, KeyAt(a, key))|, a, b, key, Never)
  }

  /**
   * A word diff of two token lists: it reads as both of them, and what it leaves unchanged is what such a script keeps,
   * except for spaces in the middle.
   */
  ghost predicate Diffed(diff: seq<Part>, a: seq<string>, b: seq<string>, key: string -> string,
                         isSpace: string -> bool) {
    && Readable(diff) && NoInnerSpace(diff, isSpace)
    && Applied(diff) == Join(b) && ReadsAs(Reverted(diff), a, key)
    && exists script: seq<Step> ::
         && Aligns(script, a, b, key)
         && Equals(diff) == Unchanged(Render([], script, a, b), |Render([], script, a, b)|, isSpace)
  }

  lemma {:induction false} ScriptAligns(a: seq<string>, b: seq<string>, key: string -> string, start: nat, endA: nat,
                                        endB: nat)
    requires Trimmed(SameWord(a, b, key), start, endA, |a|, endB, |b|)
    ensures Aligns(Script(SameWord(a, b, key), start, endA, |a|, endB, PastCap(start, endA, endB)), a, b, key)
  {
    var past := PastCap(start, endA, endB);
    ScriptCovers(SameWord(a, b, key), start, endA, |a|, endB, |b|, past);
    MinimalEditScript(a, b, key, start, endA, endB);
    if past {
      ReplacedKeepsEnds(SameWord(a, b, key), start, endA, |a|, endB);
    }
  }

  lemma {:induction false} ReplacedKeepsEnds(same: Same, start: nat, endA: nat, na: nat, endB: nat)
    requires start <= endA <= na && start <= endB
    ensures KeepsEnds(Script(same, start, endA, na, endB, true), start, endA, na, endB)
  {
    var before, after := Pairs(0, 0, start), Pairs(endA, endB, na - endA);
    forall i: nat, j: nat
      ensures Both(i, j) in Script(same, start, endA, na, endB, true) <==>
              (i == j < start) || (endA <= i < na && j + endA == i + endB) {
      if i == j < start {
        assert before[i] == Both(i, j);
      }
      if endA <= i < na && j + endA == i + endB {
        assert after[i - endA] == Both(i, j);
      }
    }
  }

  lemma {:induction false} NoMatch(a: seq<string>, b: seq<string>, key: string -> string, start: nat, endA: nat,
                                   endB: nat)
    requires endA <= |a| && endB <= |b|
    ensures (forall x: nat, y: nat | start <= x < endA && start <= y < endB :: !SameWord(a, b, key)(x, y))
       <==> (forall x: nat, y: nat | start <= x < endA && start <= y < endB :: key(a[x]) != key(b[y]))
  {
    var same := SameWord(a, b, key);
    if forall x: nat, y: nat | start <= x < endA && start <= y < endB :: !same(x, y) {
      forall x: nat, y: nat | start <= x < endA && start <= y < endB ensures key(a[x]) != key(b[y]) {
        assert !same(x, y);
      }
    }
  }

  // ---- paragraphs ---------------------------------------------------------------------

  predicate SameParagraph(x: string, y: string, normalise: string -> string) {
    normalise(x) != "" && normalise(x) == normalise(y)
  }

  /** Each distinct paragraph becomes an integer once; blank ones never match (`idOf`). */
  method Intern(a: seq<string>, b: seq<string>, normalise: string -> string) returns (idsA: seq<int>, idsB: seq<int>)
    ensures |idsA| == |a| && |idsB| == |b|
    ensures forall i, j | 0 <= i < |a| && 0 <= j < |b| ::
              (idsA[i] >= 0 && idsA[i] == idsB[j]) <==> SameParagraph(a[i], b[j], normalise)
  {
    var ids: map<string, int> := map[];
    idsA, idsB := [], [];
    for i := 0 to |a|
      invariant Numbered(ids) && Interned(ids, a[..i], idsA, -1, normalise)
    {
      var id;
      TakeOneMore(a, i);
      ids, id := IdOf(ids, normalise(a[i]), -1);
      idsA := idsA + [id];
    }
    TakeAll(a);
    for j := 0 to |b|
      invariant Numbered(ids) && Interned(ids, a, idsA, -1, normalise) && Interned(ids, b[..j], idsB, -2, normalise)
    {
      var id;
      TakeOneMore(b, j);
      ids, id := IdOf(ids, normalise(b[j]), -2);
      idsB := idsB + [id];
    }
    TakeAll(b);
    SameNumberSameForm(ids, a, idsA, b, idsB, normalise);
  }

  /** Each text has the number of its normal form, or the one for none. */
  ghost predicate Interned(ids: map<string, int>, texts: seq<string>, numbers: seq<int>, blank: int,
                           normalise: string -> string) {
    |numbers| == |texts| && forall k | 0 <= k < |texts| :: IdIs(ids, normalise(texts[k]), numbers[k], blank)
  }

  lemma {:induction false} SameNumberSameForm(ids: map<string, int>, a: seq<string>, idsA: seq<int>, b: seq<string>,
                                              idsB: seq<int>,
                                              normalise: string -> string)
    requires Numbered(ids) && Interned(ids, a, idsA, -1, normalise) && Interned(ids, b, idsB, -2, normalise)
    ensures forall i, j | 0 <= i < |a| && 0 <= j < |b| ::
              (idsA[i] >= 0 && idsA[i] == idsB[j]) <==> SameParagraph(a[i], b[j], normalise)
  {
  }

  /** Different paragraphs have different numbers. */
  ghost predicate Numbered(ids: map<string, int>) {
    && (forall k | k in ids :: 0 <= ids[k] < |ids|)
    && (forall k, l | k in ids && l in ids && ids[k] == ids[l] :: k == l)
  }

  predicate IdIs(ids: map<string, int>, key: string, id: int, blank: int) {
    if key == "" then id == blank else key in ids && id == ids[key]
  }

  method IdOf(ids: map<string, int>, key: string, blank: int) returns (after: map<string, int>, id: int)
    requires Numbered(ids)
    ensures Numbered(after) && IdIs(after, key, id, blank)
    ensures forall k | k in ids :: k in after && after[k] == ids[k]
  {
    after, id := ids, blank;
    if key != "" {
      if key !in ids {
        after := ids[key := |ids|];
      }
      id := after[key];
    }
  }

  /** Adds one diff after another, part by part. */
  function PushParts(parts: seq<Part>, more: seq<Part>): seq<Part>
    decreases more
  {
    if more == [] then parts else PushParts(Push(parts, more[0].op, more[0].text), more[1..])
  }

  ghost predicate MayJoin(parts: seq<Part>, more: seq<Part>) {
    parts != [] && more != [] ==> parts[|parts| - 1].op == more[0].op || MayFollow(parts[|parts| - 1], more[0])
  }

  lemma {:induction false} PushReadable(parts: seq<Part>, part: Part)
    requires Readable(parts) && part.text != "" && MayJoin(parts, [part])
    ensures var r := Push(parts, part.op, part.text);
            Readable(r) && r != [] && r[|r| - 1].op == part.op
  {
  }

  lemma {:induction false} PushPartsReadable(parts: seq<Part>, more: seq<Part>)
    requires Readable(parts) && Readable(more) && MayJoin(parts, more)
    ensures Readable(PushParts(parts, more))
    decreases more
  {
    if more != [] {
      PushReadable(parts, more[0]);
      assert |more| > 1 ==> MayFollow(more[0], more[1]);
      PushPartsReadable(Push(parts, more[0].op, more[0].text), more[1..]);
    }
  }

  // ---- which character is marked how ------------------------------------------------------

  datatype Mark = Mark(op: Op, letter: char)

  function MarksOf(part: Part): seq<Mark> {
    seq(|part.text|, k requires 0 <= k < |part.text| => Mark(part.op, part.text[k]))
  }

  /** Every character shown, with how it is marked. */
  function Marks(parts: seq<Part>): seq<Mark> {
    if parts == [] then [] else Marks(parts[..|parts| - 1]) + MarksOf(parts[|parts| - 1])
  }

  lemma {:induction false} MarksAppend(p: seq<Part>, q: seq<Part>)
    ensures Marks(p + q) == Marks(p) + Marks(q)
  {
    if q == [] {
      assert p + q == p;
    } else {
      var init, last := q[..|q| - 1], q[|q| - 1];
      MarksAppend(p, init);
      assert (p + q)[..|p + q| - 1] == p + init && (p + q)[|p + q| - 1] == last;
      assert (Marks(p) + Marks(init)) + MarksOf(last) == Marks(p) + (Marks(init) + MarksOf(last));
    }
  }

  lemma {:induction false} PushMarks(parts: seq<Part>, op: Op, text: string)
    ensures Marks(Push(parts, op, text)) == Marks(parts) + MarksOf(Part(op, text))
  {
    if text != "" {
      if parts != [] && parts[|parts| - 1].op == op {
        var init, last := parts[..|parts| - 1], parts[|parts| - 1];
        assert Push(parts, op, text)[..|parts| - 1] == init;
        assert MarksOf(Part(op, last.text + text)) == MarksOf(last) + MarksOf(Part(op, text));
      } else {
        assert (parts + [Part(op, text)])[..|parts|] == parts;
      }
    }
  }

  lemma {:induction false} PushPartsMarks(parts: seq<Part>, more: seq<Part>)
    ensures Marks(PushParts(parts, more)) == Marks(parts) + Marks(more)
    decreases more
  {
    if more != [] {
      PushMarks(parts, more[0].op, more[0].text);
      PushPartsMarks(Push(parts, more[0].op, more[0].text), more[1..]);
      MarksAppend([more[0]], more[1..]);
      assert more == [more[0]] + more[1..] && Marks([more[0]]) == MarksOf(more[0]);
    }
  }

  /** The last part is the longest run at the end that is marked alike. */
  lemma {:induction false} LastRun(parts: seq<Part>)
    requires Readable(parts) && parts != []
    ensures var marks, last := Marks(parts), parts[|parts| - 1];
            var start := |marks| - |last.text|;
            && 0 <= start < |marks| && marks[start..] == MarksOf(last)
            && (forall k | start <= k < |marks| :: marks[k].op == last.op && marks[k].letter == last.text[k - start])
            && (start > 0 ==> marks[start - 1].op != last.op)
  {
    var init, last := parts[..|parts| - 1], parts[|parts| - 1];
    assert Marks(parts) == Marks(init) + MarksOf(last);
    if init != [] {
      var z := init[|init| - 1];
      assert MayFollow(z, last);
      assert Marks(init)[|Marks(init)| - 1] == MarksOf(z)[|z.text| - 1];
    }
  }

  /** The marks of the characters tell the parts: there is one readable way to show them. */
  lemma {:induction false} MarksTell(p: seq<Part>, q: seq<Part>)
    requires Readable(p) && Readable(q) && Marks(p) == Marks(q)
    ensures p == q
    decreases p
  {
    if p == [] {
      if q != [] {
        LastRun(q);
      }
    } else {
      LastRun(p);
      if q != [] {
        LastRun(q);
        SameLastPart(p, q);
        MarksTell(p[..|p| - 1], q[..|q| - 1]);
        assert p == p[..|p| - 1] + [p[|p| - 1]] && q == q[..|q| - 1] + [q[|q| - 1]];
      }
    }
  }

  lemma {:induction false} SameLastPart(p: seq<Part>, q: seq<Part>)
    requires Readable(p) && Readable(q) && p != [] && q != [] && Marks(p) == Marks(q)
    ensures p[|p| - 1] == q[|q| - 1] && Marks(p[..|p| - 1]) == Marks(q[..|q| - 1])
  {
    LastRun(p);
    LastRun(q);
    var x, y, marks := p[|p| - 1], q[|q| - 1], Marks(p);
    assert marks[|marks| - 1].op == x.op == y.op;
    var start := |marks| - |x.text|;
    assert start == |marks| - |y.text|;
    SameText(x, y, marks[start..]);
    assert Marks(p[..|p| - 1]) == marks[..start];
    assert Marks(q[..|q| - 1]) == marks[..start];
  }

  lemma {:induction false} SameText(x: Part, y: Part, run: seq<Mark>)
    requires MarksOf(x) == run && MarksOf(y) == run && x.op == y.op
    ensures x == y
  {
    assert forall k | 0 <= k < |x.text| :: run[k].letter == x.text[k] && run[k].letter == y.text[k];
    assert x.text == y.text;
  }

  // ---- the stretches of a diff ---------------------------------------------------------------

  /** How texts are read: as tokens, compared by `key`, and as paragraphs, compared by their normal form. */
  datatype Lexer = Lexer(tokenize: string -> seq<string>, key: string -> string, isSpace: string -> bool,
                         normalise: string -> string)

  /** A stretch of the two texts: a paragraph of each that match, or a gap between matches diffed by words. */
  datatype Stretch = Matched(x: string, y: string) | Gap(before: seq<string>, after: seq<string>, diff: seq<Part>)

  /** Its paragraphs in the original and in the rewrite, and the parts it is shown as. */
  function Before(s: Stretch): seq<string> { if s.Matched? then [s.x] else s.before }
  function After(s: Stretch): seq<string> { if s.Matched? then [s.y] else s.after }
  function Shown(s: Stretch): seq<Part> { if s.Matched? then [Part(Equal, s.y)] else s.diff }

  /** A match is shown as the rewrite spells it; a gap by a word diff of all its text, or not at all without any. */
  ghost predicate Faithful(s: Stretch, lex: Lexer) {
    match s
    case Matched(x, y) => SameParagraph(x, y, lex.normalise)
    case Gap(before, after, diff) =>
      || (Join(before) == "" && Join(after) == "" && diff == [])
      || Diffed(diff, lex.tokenize(Join(before)), lex.tokenize(Join(after)), lex.key, lex.isSpace)
  }

  function Befores(stretches: seq<Stretch>): seq<string> {
    if stretches == [] then [] else Befores(stretches[..|stretches| - 1]) + Before(stretches[|stretches| - 1])
  }

  function Afters(stretches: seq<Stretch>): seq<string> {
    if stretches == [] then [] else Afters(stretches[..|stretches| - 1]) + After(stretches[|stretches| - 1])
  }

  function AllShown(stretches: seq<Stretch>): seq<Part> {
    if stretches == [] then [] else AllShown(stretches[..|stretches| - 1]) + Shown(stretches[|stretches| - 1])
  }

  function Matches(stretches: seq<Stretch>): nat {
    if stretches == [] then 0
    else Matches(stretches[..|stretches| - 1]) + if stretches[|stretches| - 1].Matched? then 1 else 0
  }

  /** Gaps are as long as can be: there is a match between any two. */
  ghost predicate GapsApart(stretches: seq<Stretch>) {
    forall i, j | 0 <= i < |stretches| - 1 && j == i + 1 :: stretches[i].Matched? || stretches[j].Matched?
  }

  lemma {:induction false} OneMoreStretch(stretches: seq<Stretch>, s: Stretch)
    ensures Befores(stretches + [s]) == Befores(stretches) + Before(s)
    ensures Afters(stretches + [s]) == Afters(stretches) + After(s)
    ensures AllShown(stretches + [s]) == AllShown(stretches) + Shown(s)
    ensures Matches(stretches + [s]) == Matches(stretches) + if s.Matched? then 1 else 0
  {
    assert (stretches + [s])[..|stretches|] == stretches;
  }

  /**
   * What `diffText` has built of the paragraphs `a` and `b`: stretches that make them up, and parts that mark every
   * character as its stretch does.
   */
  ghost predicate Built(parts: seq<Part>, stretches: seq<Stretch>, a: seq<string>, b: seq<string>,
                        lex: Lexer) {
    && Befores(stretches) == a && Afters(stretches) == b && GapsApart(stretches)
    && (forall k | 0 <= k < |stretches| :: Faithful(stretches[k], lex))
    && Readable(parts) && Marks(parts) == Marks(AllShown(stretches))
  }

  /** Between flushes: the paragraphs `before` and `after` are read but not yet diffed. */
  ghost predicate Pending(parts: seq<Part>, stretches: seq<Stretch>, before: seq<string>, after: seq<string>,
                          seenA: seq<string>, seenB: seq<string>, lex: Lexer) {
    && EndsEqual(parts) && (stretches != [] ==> stretches[|stretches| - 1].Matched?)
    && Built(parts, stretches, Befores(stretches), Afters(stretches), lex)
    && Befores(stretches) + before == seenA && Afters(stretches) + after == seenB
  }

  /** One more stretch, shown behind what there is. */
  lemma {:induction false} StretchBuilt(parts: seq<Part>, stretches: seq<Stretch>, s: Stretch,
                                        lex: Lexer)
    requires Built(parts, stretches, Befores(stretches), Afters(stretches), lex)
    requires Faithful(s, lex) && Readable(Shown(s)) && MayJoin(parts, Shown(s))
    requires stretches != [] ==> stretches[|stretches| - 1].Matched? || s.Matched?
    ensures Built(PushParts(parts, Shown(s)), stretches + [s], Befores(stretches) + Before(s),
                  Afters(stretches) + After(s), lex)
  {
    OneMoreStretch(stretches, s);
    PushPartsReadable(parts, Shown(s));
    StretchMarks(parts, stretches, s);
    StretchFaithful(stretches, s, lex);
  }

  lemma {:induction false} StretchMarks(parts: seq<Part>, stretches: seq<Stretch>, s: Stretch)
    requires Marks(parts) == Marks(AllShown(stretches))
    ensures Marks(PushParts(parts, Shown(s))) == Marks(AllShown(stretches + [s]))
  {
    OneMoreStretch(stretches, s);
    PushPartsMarks(parts, Shown(s));
    MarksAppend(AllShown(stretches), Shown(s));
  }

  lemma {:induction false} StretchFaithful(stretches: seq<Stretch>, s: Stretch, lex: Lexer)
    requires GapsApart(stretches) && (stretches != [] ==> stretches[|stretches| - 1].Matched? || s.Matched?)
    requires Faithful(s, lex) && forall k | 0 <= k < |stretches| :: Faithful(stretches[k], lex)
    ensures GapsApart(stretches + [s])
    ensures forall k | 0 <= k < |stretches + [s]| :: Faithful((stretches + [s])[k], lex)
  {
  }

  /** `flushGap`: the stretch since the last matched paragraph, diffed word by word. */
  method FlushGap(parts: seq<Part>, ghost stretches: seq<Stretch>, gapA: string, gapB: string,
                  ghost before: seq<string>, ghost after: seq<string>,
                  lex: Lexer,
                  ghost seenA: seq<string>, ghost seenB: seq<string>)
    returns (parts': seq<Part>, ghost stretches': seq<Stretch>)
    requires forall t :: Join(lex.tokenize(t)) == t
    requires gapA == Join(before) && gapB == Join(after)
    requires Pending(parts, stretches, before, after, seenA, seenB, lex)
    ensures Built(parts', stretches', seenA, seenB, lex)
    ensures Matches(stretches') == Matches(stretches)
  {
    parts' := parts;
    var diff: seq<Part> := [];
    if gapA != "" || gapB != "" {
      ghost var script;
      diff, script := DiffWords(lex.tokenize(gapA), lex.tokenize(gapB), lex.key, lex.isSpace);
      for k := 0 to |diff|
        invariant PushParts(parts', diff[k..]) == PushParts(parts, diff)
      {
        parts' := Push(parts', diff[k].op, diff[k].text);
        assert diff[k..][1..] == diff[k + 1..];
      }
    }
    ghost var gap := Gap(before, after, diff);
    stretches' := stretches + [gap];
    StretchBuilt(parts, stretches, gap, lex);
    OneMoreStretch(stretches, gap);
  }

  /** A matched paragraph: the gap before it is flushed, then the paragraph itself is shown, as the rewrite has it. */
  method MatchParagraph(parts: seq<Part>, ghost stretches: seq<Stretch>, gapA: string, gapB: string,
                        ghost before: seq<string>, ghost after: seq<string>, lex: Lexer, ghost a: seq<string>,
                        ghost i: nat, b: seq<string>, j: nat)
    returns (parts': seq<Part>, ghost stretches': seq<Stretch>)
    requires forall t :: Join(lex.tokenize(t)) == t
    requires gapA == Join(before) && gapB == Join(after)
    requires i < |a| && j < |b| && SameParagraph(a[i], b[j], lex.normalise) && b[j] != ""
    requires Pending(parts, stretches, before, after, a[..i], b[..j], lex)
    ensures Pending(parts', stretches', [], [], a[..i + 1], b[..j + 1], lex)
    ensures Matches(stretches') == Matches(stretches) + 1
  {
    parts', stretches' := FlushGap(parts, stretches, gapA, gapB, before, after, lex, a[..i], b[..j]);
    MatchBuilt(parts', stretches', a[..i], b[..j], a[i], b[j], lex);
    TakeOneMore(a, i);
    TakeOneMore(b, j);
    parts', stretches' := Push(parts', Equal, b[j]), stretches' + [Matched(a[i], b[j])];
  }

  lemma {:induction false} MatchBuilt(parts: seq<Part>, stretches: seq<Stretch>, seenA: seq<string>,
                                      seenB: seq<string>, x: string, y: string,
                                      lex: Lexer)
    requires Built(parts, stretches, seenA, seenB, lex)
    requires SameParagraph(x, y, lex.normalise) && y != ""
    ensures Pending(Push(parts, Equal, y), stretches + [Matched(x, y)], [], [], seenA + [x], seenB + [y], lex)
    ensures Matches(stretches + [Matched(x, y)]) == Matches(stretches) + 1
  {
    var matched := Matched(x, y);
    assert PushParts(parts, Shown(matched)) == Push(parts, Equal, y);
    StretchBuilt(parts, stretches, matched, lex);
    OneMoreStretch(stretches, matched);
    PushReadable(parts, Part(Equal, y));
    assert seenA + [x] + [] == seenA + [x] && seenB + [y] + [] == seenB + [y];
  }

  /** What the table says at (i, j) about one more step of the walk. */
  lemma {:induction false} ParagraphStep(table: seq<nat>, same: Same, n: nat, m: nat, width: nat, i: nat, j: nat)
    requires Filled(table, same, 0, n, 0, m, width, 0, width) && width == m + 1
    requires i <= n && j <= m && (i < n || j < m)
    ensures i < n && j < m ==> Cell(i, j + 1, width) < |table| && Cell(i + 1, j, width) < |table|
    ensures Lcs(same, i, n, j, m) ==
            if i < n && j < m && same(i, j) then Lcs(same, i + 1, n, j + 1, m) + 1
            else if j < m && (i >= n || table[Cell(i, j + 1, width)] >= table[Cell(i + 1, j, width)])
            then Lcs(same, i, n, j + 1, m)
            else Lcs(same, i + 1, n, j, m)
  {
    if i < n && j < m {
      assert table[Cell(i, j + 1, width)] == Wanted(same, 0, n, 0, m, i, j + 1);
      assert table[Cell(i + 1, j, width)] == Wanted(same, 0, n, 0, m, i + 1, j);
    }
  }

  function SameParagraphs(a: seq<string>, b: seq<string>, normalise: string -> string): Same {
    (i: nat, j: nat) => i < |a| && j < |b| && SameParagraph(a[i], b[j], normalise)
  }

  function SameIds(idsA: seq<int>, idsB: seq<int>): Same {
    (i: nat, j: nat) => i < |idsA| && j < |idsB| && idsA[i] >= 0 && idsA[i] == idsB[j]
  }

  /** A paragraph without a normal form is matched with none. */
  predicate Blank(form: string) { form == "" }

  lemma {:induction false} ParagraphsKeyed(a: seq<string>, b: seq<string>, normalise: string -> string)
    ensures Keyed(SameParagraphs(a, b, normalise), |a|, |b|, KeyAt(a, normalise), KeyAt(b, normalise), Blank)
  {
    forall i: nat, j: nat | i < |a| && j < |b|
      ensures SameParagraphs(a, b, normalise)(i, j) <==>
              KeyAt(a, normalise)(i) == KeyAt(b, normalise)(j) && !Blank(KeyAt(a, normalise)(i)) {
      assert At(a, i) == a[i] && At(b, j) == b[j];
      assert KeyAt(a, normalise)(i) == normalise(At(a, i)) && KeyAt(b, normalise)(j) == normalise(At(b, j));
    }
  }

  /** As many paragraphs as `Lcs` says means: as many as any sequence of non-blank normal forms that both texts have. */
  lemma {:induction false} LcsOfParagraphs(a: seq<string>, b: seq<string>, normalise: string -> string, n: nat)
    ensures NoLonger(n, a, b, normalise, Blank) <==> n >= Lcs(SameParagraphs(a, b, normalise), 0, |a|, 0, |b|)
  {
    ParagraphsKeyed(a, b, normalise);
    LcsOfKeys(SameParagraphs(a, b, normalise), a, b, normalise, Blank, n);
  }

  lemma {:induction false} LcsAgree(s: Same, t: Same, i: nat, n: nat, j: nat, m: nat)
    requires forall x: nat, y: nat | x < n && y < m :: s(x, y) == t(x, y)
    ensures Lcs(s, i, n, j, m) == Lcs(t, i, n, j, m)
    decreases n - i + m - j
  {
    if i < n && j < m {
      LcsAgree(s, t, i + 1, n, j + 1, m);
      LcsAgree(s, t, i + 1, n, j, m);
      LcsAgree(s, t, i, n, j + 1, m);
    }
  }

  /**
   * `diffText` on texts given as their paragraphs. They are cut into stretches: matched paragraphs, shown as the
   * rewrite has them, as many as possible, and gaps between them, each shown by a word diff of the whole gap. The parts
   * returned are readable and mark every character as its stretch does; so they show the rewrite, and the original as
   * the stretches spell it.
   */
  method DiffText(a: seq<string>, b: seq<string>, lex: Lexer)
    returns (parts: seq<Part>, ghost stretches: seq<Stretch>)
    requires forall t :: Join(lex.tokenize(t)) == t
    requires lex.normalise("") == ""
    ensures Readable(parts) && Marks(parts) == Marks(AllShown(stretches))
    ensures Befores(stretches) == a && Afters(stretches) == b && GapsApart(stretches)
    ensures forall k | 0 <= k < |stretches| :: Faithful(stretches[k], lex)
    ensures Applied(parts) == Join(b) && Reverted(parts) == Reverted(AllShown(stretches))
    ensures |a| == 1 || |b| == 1 ==> Diffed(parts, lex.tokenize(Join(a)), lex.tokenize(Join(b)), lex.key, lex.isSpace)
    ensures |a| != 1 && |b| != 1 ==> Matches(stretches) == Lcs(SameParagraphs(a, b, lex.normalise), 0, |a|, 0, |b|)
    ensures |a| != 1 && |b| != 1 ==> NoLonger(Matches(stretches), a, b, lex.normalise, Blank)
  {
    if |a| == 1 || |b| == 1 {
      ghost var script;
      parts, script := DiffWords(lex.tokenize(Join(a)), lex.tokenize(Join(b)), lex.key, lex.isSpace);
      stretches := [Gap(a, b, parts)];
      OneGap(a, b, parts, lex);
    } else {
      parts, stretches := AlignParagraphs(a, b, lex);
      LcsOfParagraphs(a, b, lex.normalise, Matches(stretches));
    }
    ReadsAsBuilt(parts, stretches, a, b, lex);
  }

  lemma {:induction false} OneGap(a: seq<string>, b: seq<string>, diff: seq<Part>, lex: Lexer)
    requires Readable(diff) && Faithful(Gap(a, b, diff), lex)
    ensures Built(diff, [Gap(a, b, diff)], a, b, lex)
  {
    var gap, none := Gap(a, b, diff), [];
    OneMoreStretch(none, gap);
    assert none + [gap] == [gap] && [] + a == a && [] + b == b && [] + diff == diff;
  }

  lemma {:induction false} ReadsAsBuilt(parts: seq<Part>, stretches: seq<Stretch>, a: seq<string>, b: seq<string>,
                                        lex: Lexer)
    requires forall t :: Join(lex.tokenize(t)) == t
    requires Built(parts, stretches, a, b, lex)
    ensures Applied(parts) == Join(b) && Reverted(parts) == Reverted(AllShown(stretches))
  {
    ShownTexts(stretches, lex);
    MarksGiveText(parts, Delete);
    MarksGiveText(AllShown(stretches), Delete);
    MarksGiveText(parts, Insert);
    MarksGiveText(AllShown(stretches), Insert);
  }

  /** Without its deletions, what the stretches show is the rewrite. */
  lemma {:induction false} ShownTexts(stretches: seq<Stretch>, lex: Lexer)
    requires forall t :: Join(lex.tokenize(t)) == t
    requires forall k | 0 <= k < |stretches| :: Faithful(stretches[k], lex)
    ensures Applied(AllShown(stretches)) == Join(Afters(stretches))
    decreases stretches
  {
    if stretches != [] {
      var init, s := stretches[..|stretches| - 1], stretches[|stretches| - 1];
      ShownTexts(init, lex);
      TextWithoutAppend(AllShown(init), Shown(s), Delete);
      JoinAppend(Afters(init), After(s));
      if s.Matched? {
        assert Shown(s)[1..] == [] && [s.y][1..] == [] && s.y + "" == s.y;
      }
    }
  }

  function MarkedText(marks: seq<Mark>, without: Op): string {
    if marks == [] then ""
    else MarkedText(marks[..|marks| - 1], without) +
         if marks[|marks| - 1].op == without then "" else [marks[|marks| - 1].letter]
  }

  lemma {:induction false} MarksGiveText(parts: seq<Part>, without: Op)
    ensures TextWithout(parts, without) == MarkedText(Marks(parts), without)
    decreases parts
  {
    if parts != [] {
      var init, last := parts[..|parts| - 1], parts[|parts| - 1];
      MarksGiveText(init, without);
      assert parts == init + [last] && [last][1..] == [];
      TextWithoutAppend(init, [last], without);
      RunGivesText(Marks(init), last.op, last.text, without);
      assert last.text + "" == last.text;
    }
  }

  lemma {:induction false} RunGivesText(marks: seq<Mark>, op: Op, text: string, without: Op)
    ensures MarkedText(marks + MarksOf(Part(op, text)), without)
         == MarkedText(marks, without) + if op == without then "" else text
    decreases text
  {
    if text == "" {
      assert marks + MarksOf(Part(op, text)) == marks;
    } else {
      var init := text[..|text| - 1];
      RunGivesText(marks, op, init, without);
      var run := marks + MarksOf(Part(op, text));
      assert run[..|run| - 1] == marks + MarksOf(Part(op, init));
      assert text == init + [text[|text| - 1]];
    }
  }

  /** The paragraph table and its backtrack, for texts of several paragraphs. */
  method AlignParagraphs(a: seq<string>, b: seq<string>, lex: Lexer)
    returns (parts: seq<Part>, ghost stretches: seq<Stretch>)
    requires forall t :: Join(lex.tokenize(t)) == t
    requires lex.normalise("") == ""
    ensures Built(parts, stretches, a, b, lex)
    ensures Matches(stretches) == Lcs(SameParagraphs(a, b, lex.normalise), 0, |a|, 0, |b|)
  {
    var idsA, idsB := Intern(a, b, lex.normalise);
    var same := SameIds(idsA, idsB);
    LcsAgree(same, SameParagraphs(a, b, lex.normalise), 0, |a|, 0, |b|);
    var lengths := FillTable(same, 0, |a|, 0, |b|, |b| + 1);
    parts, stretches := WalkParagraphs(a, b, same, lengths, lex);
  }

  method WalkParagraphs(a: seq<string>, b: seq<string>, same: Same, lengths: seq<nat>, lex: Lexer)
    returns (parts: seq<Part>, ghost stretches: seq<Stretch>)
    requires forall t :: Join(lex.tokenize(t)) == t
    requires lex.normalise("") == ""
    requires forall i: nat, j: nat | i < |a| && j < |b| :: same(i, j) == SameParagraph(a[i], b[j], lex.normalise)
    requires Filled(lengths, same, 0, |a|, 0, |b|, |b| + 1, 0, |b| + 1)
    ensures Built(parts, stretches, a, b, lex)
    ensures Matches(stretches) == Lcs(same, 0, |a|, 0, |b|)
  {
    var n, m, width := |a|, |b|, |b| + 1;
    parts, stretches := [], [];
    var gapA, gapB := "", "";
    ghost var before, after: seq<string> := [], [];
    var i: nat, j: nat := 0, 0;
    while i < n || j < m
      invariant i <= n && j <= m && gapA == Join(before) && gapB == Join(after)
      invariant Pending(parts, stretches, before, after, a[..i], b[..j], lex)
      invariant Matches(stretches) + Lcs(same, i, n, j, m) == Lcs(same, 0, n, 0, m)
      decreases n - i + m - j
    {
      ParagraphStep(lengths, same, n, m, width, i, j);
      if i < n && j < m && same(i, j) {
        parts, stretches := MatchParagraph(parts, stretches, gapA, gapB, before, after, lex, a, i, b, j);
        gapA, gapB, before, after := "", "", [], [];
        i, j := i + 1, j + 1;
      } else if j < m && (i >= n || lengths[Cell(i, j + 1, width)] >= lengths[Cell(i + 1, j, width)]) {
        AfterGrows(parts, stretches, before, after, a[..i], b, j, lex);
        gapB, after := gapB + b[j], after + [b[j]];
        j := j + 1;
      } else {
        BeforeGrows(parts, stretches, before, after, a, i, b[..j], lex);
        gapA, before := gapA + a[i], before + [a[i]];
        i := i + 1;
      }
    }
    assert i == n && j == m;
    TakeAll(a);
    TakeAll(b);
    assert Pending(parts, stretches, before, after, a, b, lex);
    parts, stretches := FlushGap(parts, stretches, gapA, gapB, before, after, lex, a, b);
  }

  lemma {:induction false} BeforeGrows(parts: seq<Part>, stretches: seq<Stretch>, before: seq<string>,
                                       after: seq<string>, a: seq<string>, i: nat, seenB: seq<string>, lex: Lexer)
    requires i < |a| && Pending(parts, stretches, before, after, a[..i], seenB, lex)
    ensures Join(before + [a[i]]) == Join(before) + a[i]
    ensures Pending(parts, stretches, before + [a[i]], after, a[..i + 1], seenB, lex)
  {
    GapGrows(Befores(stretches), before, a, i);
  }

  lemma {:induction false} AfterGrows(parts: seq<Part>, stretches: seq<Stretch>, before: seq<string>,
                                      after: seq<string>, seenA: seq<string>, b: seq<string>, j: nat, lex: Lexer)
    requires j < |b| && Pending(parts, stretches, before, after, seenA, b[..j], lex)
    ensures Join(after + [b[j]]) == Join(after) + b[j]
    ensures Pending(parts, stretches, before, after + [b[j]], seenA, b[..j + 1], lex)
  {
    GapGrows(Afters(stretches), after, b, j);
  }

  lemma {:induction false} GapGrows(shown: seq<string>, gap: seq<string>, texts: seq<string>, i: nat)
    requires i < |texts| && shown + gap == texts[..i]
    ensures shown + (gap + [texts[i]]) == texts[..i + 1] && Join(gap + [texts[i]]) == Join(gap) + texts[i]
  {
    JoinAppend(gap, [texts[i]]);
    assert [texts[i]][1..] == [] && texts[i] + "" == texts[i];
  }

  // ---- counting the changes -----------------------------------------------------------

  datatype DiffStats = DiffStats(wordsAdded: nat, wordsRemoved: nat, changes: nat)

  /** Where a maximal run of edits starts. */
  predicate ChangeStarts(parts: seq<Part>, i: nat)
    requires i < |parts|
  {
    parts[i].op != Equal && (i == 0 || parts[i - 1].op == Equal)
  }

  /** How many maximal runs of edits start among the first n parts. */
  ghost function Changes(parts: seq<Part>, n: nat): nat
    requires n <= |parts|
  {
    |set i: nat | i < n && ChangeStarts(parts, i)|
  }

  /** The words in the parts with this op. */
  function Words(parts: seq<Part>, op: Op, countWords: string -> nat): nat {
    if parts == [] then 0
    else Words(parts[..|parts| - 1], op, countWords) +
         if parts[|parts| - 1].op == op then countWords(parts[|parts| - 1].text) else 0
  }

  method Stats(parts: seq<Part>, countWords: string -> nat) returns (stats: DiffStats)
    ensures stats.changes == Changes(parts, |parts|)
    ensures stats.wordsAdded == Words(parts, Insert, countWords)
    ensures stats.wordsRemoved == Words(parts, Delete, countWords)
  {
    var wordsAdded: nat, wordsRemoved: nat, changes: nat := 0, 0, 0;
    var inChange := false;
    for k := 0 to |parts|
      invariant inChange <==> k > 0 && parts[k - 1].op != Equal
      invariant changes == Changes(parts, k)
      invariant wordsAdded == Words(parts[..k], Insert, countWords)
      invariant wordsRemoved == Words(parts[..k], Delete, countWords)
    {
      var part := parts[k];
      assert parts[..k + 1][..k] == parts[..k];
      OneMoreChange(parts, k);
      if part.op == Equal {
        inChange := false;
      } else {
        if !inChange {
          changes := changes + 1;
        }
        inChange := true;
        if part.op == Insert {
          wordsAdded := wordsAdded + countWords(part.text);
        } else {
          wordsRemoved := wordsRemoved + countWords(part.text);
        }
      }
    }
    assert parts[..|parts|] == parts;
    stats := DiffStats(wordsAdded, wordsRemoved, changes);
  }

  lemma {:induction false} OneMoreChange(parts: seq<Part>, k: nat)
    requires k < |parts|
    ensures Changes(parts, k + 1) == Changes(parts, k) + if ChangeStarts(parts, k) then 1 else 0
  {
    var before, after := set i: nat | i < k && ChangeStarts(parts, i), set i: nat | i < k + 1 && ChangeStarts(parts, i);
    assert after == before + if ChangeStarts(parts, k) then {k} else {};
  }

  /** In a readable diff every changed region is a deletion, an insertion, or one of each in that order. */
  lemma {:induction false} ChangesAreReplacements(parts: seq<Part>, i: nat)
    requires Readable(parts) && i < |parts| && ChangeStarts(parts, i)
    ensures (i + 1 == |parts| || parts[i + 1].op == Equal)
         || (parts[i].op == Delete && parts[i + 1].op == Insert && (i + 2 == |parts| || parts[i + 2].op == Equal))
  {
    if i + 1 < |parts| {
      assert MayFollow(parts[i], parts[i + 1]);
      if i + 2 < |parts| {
        assert MayFollow(parts[i + 1], parts[i + 2]);
      }
    }
  }
}
