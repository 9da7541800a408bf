/** The readability pass over a word diff (`tidy` in client/src/lib/diff.ts). */
module Tidying {
  import opened Sequences
  import opened EditScript
  import opened WordScript

  /** A part that is only space, unchanged, between two edits. */
  predicate LoneSpace(parts: seq<Part>, i: nat, isSpace: string -> bool)
    requires i < |parts|
  {
    && parts[i].op == Equal && isSpace(parts[i].text)
    && 0 < i < |parts| - 1 && parts[i - 1].op != Equal && parts[i + 1].op != Equal
  }

  /** The unchanged texts among the first n parts, in order, leaving out spaces that are neither first nor last. */
  function Unchanged(parts: seq<Part>, n: nat, isSpace: string -> bool): seq<string>
    requires n <= |parts|
  {
    if n == 0 then []
    else Unchanged(parts, n - 1, isSpace) + UnchangedAt(parts, n - 1, isSpace)
  }

  function UnchangedAt(parts: seq<Part>, i: nat, isSpace: string -> bool): seq<string>
    requires i < |parts|
  {
    if parts[i].op == Equal && (i == 0 || i + 1 == |parts| || !isSpace(parts[i].text)) then [parts[i].text] else []
  }

  /** The unchanged texts, in order. */
  function Equals(parts: seq<Part>): seq<string> {
    if parts == [] then []
    else Equals(parts[..|parts| - 1]) +
         if parts[|parts| - 1].op == Equal then [parts[|parts| - 1].text] else []
  }

  /** No unchanged part is only space, except at either end of the diff. */
  predicate NoInnerSpace(parts: seq<Part>, isSpace: string -> bool) {
    forall i | 0 < i < |parts| - 1 && parts[i].op == Equal :: !isSpace(parts[i].text)
  }

  /** The first n parts with every lone space turned into a deletion and an insertion of that space. */
  function Folded(parts: seq<Part>, n: nat, isSpace: string -> bool): seq<Part>
    requires n <= |parts|
  {
    if n == 0 then []
    else Folded(parts, n - 1, isSpace) + FoldedPart(parts, n - 1, isSpace)
  }

  function FoldedPart(parts: seq<Part>, i: nat, isSpace: string -> bool): seq<Part>
    requires i < |parts|
  {
    if LoneSpace(parts, i, isSpace) then [Part(Delete, parts[i].text), Part(Insert, parts[i].text)] else [parts[i]]
  }

  lemma {:induction false} FoldedPartText(parts: seq<Part>, i: nat, isSpace: string -> bool, without: Op)
    requires i < |parts| && without != Equal
    ensures TextWithout(FoldedPart(parts, i, isSpace), without) == TextWithout([parts[i]], without)
  {
    var text := parts[i].text;
    if LoneSpace(parts, i, isSpace) {
      var two := [Part(Delete, text), Part(Insert, text)];
      assert two[1..] == [Part(Insert, text)] && [Part(Insert, text)][1..] == [];
      assert text + "" == text && "" + text == text;
    }
  }

  /** Folding changes neither side's text. */
  lemma {:induction false} FoldedText(parts: seq<Part>, n: nat, isSpace: string -> bool, without: Op)
    requires n <= |parts| && without != Equal
    ensures TextWithout(Folded(parts, n, isSpace), without) == TextWithout(parts[..n], without)
  {
    if n > 0 {
      FoldedText(parts, n - 1, isSpace, without);
      FoldedPartText(parts, n - 1, isSpace, without);
      assert parts[..n] == parts[..n - 1] + [parts[n - 1]];
      TextWithoutAppend(parts[..n - 1], [parts[n - 1]], without);
      TextWithoutAppend(Folded(parts, n - 1, isSpace), FoldedPart(parts, n - 1, isSpace), without);
    }
  }

  lemma {:induction false} EqualsAppend(p: seq<Part>, q: seq<Part>)
    ensures Equals(p + q) == Equals(p) + Equals(q)
  {
    if q == [] {
      assert p + q == p;
    } else {
      var init := q[..|q| - 1];
      EqualsAppend(p, init);
      assert (p + q)[..|p + q| - 1] == p + init;
    }
  }

  lemma {:induction false} FoldedPartEquals(parts: seq<Part>, i: nat, isSpace: string -> bool)
    requires Merged(parts) && i < |parts|
    ensures Equals(FoldedPart(parts, i, isSpace)) == UnchangedAt(parts, i, isSpace)
  {
    assert 0 < i < |parts| - 1 ==> parts[i - 1].op != parts[i].op && parts[i].op != parts[i + 1].op;
    EqualsAppend([], [parts[i]]);
    EqualsAppend([Part(Delete, parts[i].text)], [Part(Insert, parts[i].text)]);
  }

  lemma {:induction false} FoldedEquals(parts: seq<Part>, n: nat, isSpace: string -> bool)
    requires n <= |parts|
    requires forall i | 0 <= i < n :: Equals(FoldedPart(parts, i, isSpace)) == UnchangedAt(parts, i, isSpace)
    ensures Equals(Folded(parts, n, isSpace)) == Unchanged(parts, n, isSpace)
  {
    if n > 0 {
      FoldedEquals(parts, n - 1, isSpace);
      EqualsAppend(Folded(parts, n - 1, isSpace), FoldedPart(parts, n - 1, isSpace));
    }
  }

  /** The shape the second loop relies on: nothing empty, no two unchanged parts side by side. */
  ghost predicate Alternates(parts: seq<Part>) {
    && (forall i | 0 <= i < |parts| :: parts[i].text != "")
    && (forall i, j | 0 <= i < |parts| - 1 && j == i + 1 :: !(parts[i].op == Equal && parts[j].op == Equal))
  }

  /** An unchanged part that is only space comes first, or last if `last` says so. */
  ghost predicate InnerSpaces(parts: seq<Part>, isSpace: string -> bool, last: bool) {
    forall i | 0 < i < |parts| && parts[i].op == Equal && isSpace(parts[i].text) :: last && i == |parts| - 1
  }

  lemma {:induction false} FoldedShape(parts: seq<Part>, n: nat, isSpace: string -> bool)
    requires Merged(parts) && n <= |parts|
    ensures Alternates(Folded(parts, n, isSpace)) && |Folded(parts, n, isSpace)| >= n
    ensures n > 0 && Folded(parts, n, isSpace)[|Folded(parts, n, isSpace)| - 1].op == Equal ==> parts[n - 1].op == Equal
  {
    if n > 0 {
      FoldedShape(parts, n - 1, isSpace);
      assert n >= 2 ==> parts[n - 2].op != parts[n - 1].op;
      AlternatesAppend(Folded(parts, n - 1, isSpace), FoldedPart(parts, n - 1, isSpace));
    }
  }

  lemma {:induction false} AlternatesAppend(was: seq<Part>, more: seq<Part>)
    requires Alternates(was) && Alternates(more)
    requires was != [] && more != [] ==> !(was[|was| - 1].op == Equal && more[0].op == Equal)
    ensures Alternates(was + more)
  {
    var all := was + more;
    forall i, j | 0 <= i < |all| - 1 && j == i + 1 ensures !(all[i].op == Equal && all[j].op == Equal) {
      assert i < |was| ==> all[i] == was[i];
      assert j < |was| ==> all[j] == was[j];
      assert j >= |was| ==> all[j] == more[j - |was|];
      assert i >= |was| ==> all[i] == more[i - |was|];
    }
  }

  lemma {:induction false} FoldedSpaces(parts: seq<Part>, n: nat, isSpace: string -> bool)
    requires Merged(parts) && n <= |parts|
    ensures InnerSpaces(Folded(parts, n, isSpace), isSpace, n == |parts|)
  {
    if n > 0 {
      FoldedSpaces(parts, n - 1, isSpace);
      FoldedShape(parts, n - 1, isSpace);
      var was, folded := Folded(parts, n - 1, isSpace), Folded(parts, n, isSpace);
      assert n >= 2 ==> parts[n - 2].op != parts[n - 1].op;
      assert n < |parts| ==> parts[n - 1].op != parts[n].op;
      forall i | 0 < i < |folded|
        ensures folded[i].op == Equal && isSpace(folded[i].text) ==> n == |parts| && i == |folded| - 1 {
        assert i < |was| ==> was[i] == folded[i];
      }
    }
  }

  /** First loop of `tidy`. */
  method Fold(parts: seq<Part>, isSpace: string -> bool) returns (folded: seq<Part>)
    ensures folded == Folded(parts, |parts|, isSpace)
  {
    folded := [];
    for index := 0 to |parts|
      invariant folded == Folded(parts, index, isSpace)
    {
      var part := parts[index];
      if LoneSpace(parts, index, isSpace) {
        folded := folded + [Part(Delete, part.text), Part(Insert, part.text)];
      } else {
        folded := folded + [part];
      }
    }
  }

  /** What the second loop carries: the parts put out, and the deleted and inserted text held back. */
  datatype Grouping = Grouping(out: seq<Part>, removed: string, added: string)

  function Flush(g: Grouping): Grouping {
    Grouping(Push(Push(g.out, Delete, g.removed), Insert, g.added), "", "")
  }

  function GroupStep(g: Grouping, part: Part): Grouping {
    match part.op
    case Delete => g.(removed := g.removed + part.text)
    case Insert => g.(added := g.added + part.text)
    case Equal => var f := Flush(g); f.(out := Push(f.out, Equal, part.text))
  }

  function Grouped(parts: seq<Part>, n: nat): Grouping
    requires n <= |parts|
  {
    if n == 0 then Grouping([], "", "") else GroupStep(Grouped(parts, n - 1), parts[n - 1])
  }

  /** Everything seen so far, put out or held back, read without deletions and without insertions. */
  lemma {:induction false} FlushText(g: Grouping)
    ensures Applied(Flush(g).out) == Applied(g.out) + g.added
    ensures Reverted(Flush(g).out) == Reverted(g.out) + g.removed
  {
    var deleted := Push(g.out, Delete, g.removed);
    PushText(g.out, Delete, g.removed, Delete);
    PushText(g.out, Delete, g.removed, Insert);
    PushText(deleted, Insert, g.added, Delete);
    PushText(deleted, Insert, g.added, Insert);
  }

  lemma {:induction false} GroupStepText(g: Grouping, part: Part)
    ensures var h := GroupStep(g, part);
            && Applied(h.out) + h.added == (Applied(g.out) + g.added) + (if part.op == Delete then "" else part.text)
            && Reverted(h.out) + h.removed == (Reverted(g.out) + g.removed)
                 + (if part.op == Insert then "" else part.text)
  {
    match part.op
    case Delete => Assoc(Reverted(g.out), g.removed, part.text);
    case Insert => Assoc(Applied(g.out), g.added, part.text);
    case Equal =>
      FlushText(g);
      PushText(Flush(g).out, Equal, part.text, Delete);
      PushText(Flush(g).out, Equal, part.text, Insert);
  }

  lemma {:induction false} GroupedText(parts: seq<Part>, n: nat)
    requires n <= |parts|
    ensures Applied(Grouped(parts, n).out) + Grouped(parts, n).added == Applied(parts[..n])
    ensures Reverted(Grouped(parts, n).out) + Grouped(parts, n).removed == Reverted(parts[..n])
  {
    if n > 0 {
      GroupedText(parts, n - 1);
      GroupStepText(Grouped(parts, n - 1), parts[n - 1]);
      assert parts[..n] == parts[..n - 1] + [parts[n - 1]];
      TextWithoutAppend(parts[..n - 1], [parts[n - 1]], Delete);
      TextWithoutAppend(parts[..n - 1], [parts[n - 1]], Insert);
      assert [parts[n - 1]][1..] == [];
    }
  }

  /** The text held back, as the parts it becomes. */
  function HeldBack(g: Grouping): seq<Part> {
    (if g.removed == "" then [] else [Part(Delete, g.removed)])
        + (if g.added == "" then [] else [Part(Insert, g.added)])
  }

  ghost predicate EndsEqual(parts: seq<Part>) {
    parts == [] || parts[|parts| - 1].op == Equal
  }

  lemma {:induction false} FlushIsHeldBack(g: Grouping)
    requires EndsEqual(g.out)
    ensures Flush(g).out == g.out + HeldBack(g)
  {
  }

  lemma {:induction false} ReadableAppend(p: seq<Part>, q: seq<Part>)
    requires Readable(p) && Readable(q)
    requires p != [] && q != [] ==> MayFollow(p[|p| - 1], q[0])
    ensures Readable(p + q)
  {
    forall i, j | 0 <= i < |p + q| - 1 && j == i + 1 ensures MayFollow((p + q)[i], (p + q)[j]) {
      if j < |p| {
        assert MayFollow(p[i], p[j]);
      } else if j > |p| {
        assert MayFollow(q[i - |p|], q[j - |p|]);
      }
    }
  }

  /** One step of the second loop, seen from outside: what it puts out, and what it leaves held back. */
  lemma {:induction false} GroupStepShape(g: Grouping, part: Part)
    requires EndsEqual(g.out) && part.text != ""
    requires part.op == Equal && g.out != [] ==> HeldBack(g) != []
    ensures GroupStep(g, part).out == if part.op == Equal then g.out + HeldBack(g) + [part] else g.out
    ensures HeldBack(GroupStep(g, part)) == [] <==> part.op == Equal
  {
    if part.op == Equal {
      FlushIsHeldBack(g);
      var flushed := Flush(g).out;
      assert flushed != [] ==> flushed[|flushed| - 1].op != Equal;
    }
  }

  lemma {:induction false} EqualsOfHeldBack(g: Grouping)
    ensures Equals(HeldBack(g)) == [] && Readable(HeldBack(g))
    ensures HeldBack(g) != [] ==> HeldBack(g)[0].op != Equal && HeldBack(g)[|HeldBack(g)| - 1].op != Equal
  {
    EqualsAppend(if g.removed == "" then [] else [Part(Delete, g.removed)], if g.added == "" then []
                 else [Part(Insert, g.added)]);
  }

  /** Where the second loop stands after the parts `seen`. */
  ghost predicate Settled(g: Grouping, seen: seq<Part>) {
    && Readable(g.out) && EndsEqual(g.out) && Equals(g.out) == Equals(seen)
    && (HeldBack(g) == [] <==> seen == [] || seen[|seen| - 1].op == Equal)
    && (g.out == [] ==> seen == [] || HeldBack(g) != [])
  }

  lemma {:induction false} SettledStep(g: Grouping, seen: seq<Part>, part: Part)
    requires Settled(g, seen) && part.text != ""
    requires part.op == Equal && seen != [] ==> seen[|seen| - 1].op != Equal
    ensures Settled(GroupStep(g, part), seen + [part])
  {
    GroupStepShape(g, part);
    EqualsAppend(seen, [part]);
    if part.op == Equal {
      PutOutShape(g, part);
    }
  }

  lemma {:induction false} AlternatesAt(parts: seq<Part>, n: nat)
    requires Alternates(parts) && n < |parts|
    ensures parts[n].text != ""
    ensures n > 0 ==> parts[..n] != [] && parts[..n][|parts[..n]| - 1] == parts[n - 1]
    ensures n > 0 && parts[n].op == Equal ==> parts[n - 1].op != Equal
  {
  }

  lemma {:induction false} GroupedShape(parts: seq<Part>, n: nat)
    requires Alternates(parts) && n <= |parts|
    ensures Settled(Grouped(parts, n), parts[..n])
  {
    if n > 0 {
      GroupedShape(parts, n - 1);
      AlternatesAt(parts, n - 1);
      assert parts[..n] == parts[..n - 1] + [parts[n - 1]];
      SettledStep(Grouped(parts, n - 1), parts[..n - 1], parts[n - 1]);
    }
  }

  lemma {:induction false} PutOutShape(g: Grouping, part: Part)
    requires Readable(g.out) && EndsEqual(g.out) && part.op == Equal && part.text != ""
    requires g.out != [] ==> HeldBack(g) != []
    ensures Readable(g.out + HeldBack(g) + [part])
    ensures Equals(g.out + HeldBack(g) + [part]) == Equals(g.out) + [part.text]
  {
    EqualsOfHeldBack(g);
    ReadableAppend(g.out, HeldBack(g));
    ReadableAppend(g.out + HeldBack(g), [part]);
    EqualsAppend(g.out, HeldBack(g));
    EqualsAppend(g.out + HeldBack(g), [part]);
  }

  /** Only the first or last unchanged part of the result can be only space. */
  lemma {:induction false} GroupedSpaces(parts: seq<Part>, n: nat, isSpace: string -> bool)
    requires Alternates(parts) && n <= |parts| && InnerSpaces(parts, isSpace, true)
    ensures InnerSpaces(Grouped(parts, n).out, isSpace, n == |parts|)
    ensures n == |parts| && n > 0 && parts[n - 1].op != Equal ==> InnerSpaces(Grouped(parts, n).out, isSpace, false)
  {
    if n > 0 {
      GroupedSpaces(parts, n - 1, isSpace);
      GroupedShape(parts, n - 1);
      var g, part := Grouped(parts, n - 1), parts[n - 1];
      assert part.op == Equal && n >= 2 ==> parts[n - 2].op != Equal;
      GroupStepShape(g, part);
      if part.op == Equal {
        PutOutSpaces(g, part, isSpace, n == |parts|);
      }
    }
  }

  lemma {:induction false} PutOutSpaces(g: Grouping, part: Part, isSpace: string -> bool, last: bool)
    requires part.op == Equal && InnerSpaces(g.out, isSpace, false)
    requires isSpace(part.text) ==> last || (g.out == [] && HeldBack(g) == [])
    ensures InnerSpaces(g.out + HeldBack(g) + [part], isSpace, last)
  {
    EqualsOfHeldBack(g);
    var out := g.out + HeldBack(g) + [part];
    forall i | 0 < i < |out| ensures out[i].op == Equal && isSpace(out[i].text) ==> last && i == |out| - 1 {
      assert i < |g.out| ==> g.out[i] == out[i];
      assert |g.out| <= i < |out| - 1 ==> out[i] == HeldBack(g)[i - |g.out|];
    }
  }

  /** `tidy`: fold lone spaces into the edits around them, then deletions before insertions in each changed region. */
  method Tidy(parts: seq<Part>, isSpace: string -> bool) returns (out: seq<Part>)
    requires Merged(parts)
    ensures Applied(out) == Applied(parts) && Reverted(out) == Reverted(parts)
    ensures Readable(out) && NoInnerSpace(out, isSpace)
    ensures Equals(out) == Unchanged(parts, |parts|, isSpace)
  {
    var folded := Fold(parts, isSpace);
    ghost var n := |folded|;
    out := [];
    var removed, added := "", "";
    for k := 0 to |folded|
      invariant Grouping(out, removed, added) == Grouped(folded, k)
    {
      var part := folded[k];
      match part.op {
        case Delete => removed := removed + part.text;
        case Insert => added := added + part.text;
        case Equal =>
          out := Push(Push(out, Delete, removed), Insert, added);
          removed, added := "", "";
          out := Push(out, Equal, part.text);
      }
    }
    out := Push(Push(out, Delete, removed), Insert, added);
    TidyCorrect(parts, isSpace);
  }

  lemma {:induction false} TidyCorrect(parts: seq<Part>, isSpace: string -> bool)
    requires Merged(parts)
    ensures var folded := Folded(parts, |parts|, isSpace);
            var out := Flush(Grouped(folded, |folded|)).out;
            && Applied(out) == Applied(parts) && Reverted(out) == Reverted(parts)
            && Readable(out) && NoInnerSpace(out, isSpace)
            && Equals(out) == Unchanged(parts, |parts|, isSpace)
  {
    var folded := Folded(parts, |parts|, isSpace);
    var g := Grouped(folded, |folded|);
    assert parts[..|parts|] == parts && folded[..|folded|] == folded;
    FoldedText(parts, |parts|, isSpace, Delete);
    FoldedText(parts, |parts|, isSpace, Insert);
    forall i | 0 <= i < |parts| ensures Equals(FoldedPart(parts, i, isSpace)) == UnchangedAt(parts, i, isSpace) {
      FoldedPartEquals(parts, i, isSpace);
    }
    FoldedEquals(parts, |parts|, isSpace);
    FoldedShape(parts, |parts|, isSpace);
    FoldedSpaces(parts, |parts|, isSpace);
    GroupedText(folded, |folded|);
    FlushText(g);
    TidyShape(folded, isSpace);
  }

  lemma {:induction false} TidyShape(folded: seq<Part>, isSpace: string -> bool)
    requires Alternates(folded) && InnerSpaces(folded, isSpace, true)
    ensures var out := Flush(Grouped(folded, |folded|)).out;
            Readable(out) && NoInnerSpace(out, isSpace) && Equals(out) == Equals(folded)
  {
    var g := Grouped(folded, |folded|);
    assert folded[..|folded|] == folded;
    GroupedShape(folded, |folded|);
    GroupedSpaces(folded, |folded|, isSpace);
    FlushIsHeldBack(g);
    EqualsOfHeldBack(g);
    ReadableAppend(g.out, HeldBack(g));
    EqualsAppend(g.out, HeldBack(g));
    var out := g.out + HeldBack(g);
    forall i | 0 < i < |out| - 1 ensures out[i].op == Equal ==> !isSpace(out[i].text) {
      assert i < |g.out| ==> g.out[i] == out[i];
      assert i >= |g.out| ==> out[i] == HeldBack(g)[i - |g.out|];
    }
  }
}
