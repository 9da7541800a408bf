/**
 * What a diff is: runs of text marked equal, inserted or deleted, and the edit script behind them
 * (client/src/lib/diff.ts). Two sides `0..na` and `0..nb` are compared by `same(i, j)`, the code's own notion of
 * "the same word" or "the same paragraph".
 */
module EditScript {
  import opened Sequences

  datatype Op = Equal | Insert | Delete
  datatype Part = Part(op: Op, text: string)

  /** Adds `text` to the last part when that has the same op. */
  function Push(parts: seq<Part>, op: Op, text: string): (r: seq<Part>) {
    if text == "" then parts
    else if parts != [] && parts[|parts| - 1].op == op then
      parts[|parts| - 1 := Part(op, parts[|parts| - 1].text + text)]
    else parts + [Part(op, text)]
  }

  function Join(texts: seq<string>): string {
    if texts == [] then "" else texts[0] + Join(texts[1..])
  }

  /** The text of the parts whose op is not `without`, in order. */
  function TextWithout(parts: seq<Part>, without: Op): string {
    if parts == [] then ""
    else (if parts[0].op == without then "" else parts[0].text) + TextWithout(parts[1..], without)
  }

  function Applied(parts: seq<Part>): string { TextWithout(parts, Delete) }
  function Reverted(parts: seq<Part>): string { TextWithout(parts, Insert) }

  /** Neighbours differ, and a deletion comes before the insertion that replaces it. */
  predicate MayFollow(x: Part, y: Part) {
    x.op != y.op && !(x.op == Insert && y.op == Delete)
  }

  /** Nothing empty, and every part may follow the one in front of it. */
  predicate Readable(parts: seq<Part>) {
    && (forall i | 0 <= i < |parts| :: parts[i].text != "")
    && (forall i, j | 0 <= i < |parts| - 1 && j == i + 1 :: MayFollow(parts[i], parts[j]))
  }

  lemma {:induction false} TextWithoutAppend(p: seq<Part>, q: seq<Part>, op: Op)
    ensures TextWithout(p + q, op) == TextWithout(p, op) + TextWithout(q, op)
  {
    if p == [] {
      assert p + q == q;
    } else {
      TextWithoutAppend(p[1..], q, op);
      assert (p + q)[1..] == p[1..] + q;
      Assoc(if p[0].op == op then "" else p[0].text, TextWithout(p[1..], op), TextWithout(q, op));
    }
  }

  lemma {:induction false} PushText(parts: seq<Part>, op: Op, text: string, without: Op)
    ensures TextWithout(Push(parts, op, text), without)
         == TextWithout(parts, without) + if op == without then "" else text
  {
    if text != "" {
      if parts != [] && parts[|parts| - 1].op == op {
        var init, last := parts[..|parts| - 1], parts[|parts| - 1];
        assert parts == init + [last];
        assert Push(parts, op, text) == init + [Part(op, last.text + text)];
        TextWithoutAppend(init, [last], without);
        TextWithoutAppend(init, [Part(op, last.text + text)], without);
      } else {
        TextWithoutAppend(parts, [Part(op, text)], without);
      }
    }
  }

  /** Pushing piece by piece or joined makes no difference. */
  lemma {:induction false} PushTwice(parts: seq<Part>, op: Op, x: string, y: string)
    ensures Push(Push(parts, op, x), op, y) == Push(parts, op, x + y)
  {
    if x == "" {
      assert x + y == y;
    } else if y == "" {
      assert x + y == x;
    } else if parts != [] && parts[|parts| - 1].op == op {
      assert (parts[|parts| - 1].text + x) + y == parts[|parts| - 1].text + (x + y);
    }
  }

  lemma {:induction false} JoinAppend(x: seq<string>, y: seq<string>)
    ensures Join(x + y) == Join(x) + Join(y)
  {
    if x == [] {
      assert x + y == y;
    } else {
      JoinAppend(x[1..], y);
      assert (x + y)[1..] == x[1..] + y;
    }
  }

  /** Every pair on the diagonal of length `n` from (i, j) matches. */
  ghost predicate Diagonal(same: Same, i: nat, j: nat, n: nat) {
    forall x: nat, y: nat | i <= x < i + n && y == j + (x - i) :: same(x, y)
  }

  // ---- the longest common subsequence ------------------------------------------------

  type Same = (nat, nat) -> bool

  /** What the table holds: the length compared from (i, j) up to (na, nb). */
  function Lcs(same: Same, i: nat, na: nat, j: nat, nb: nat): nat
    decreases na - i + nb - j
  {
    if i >= na || j >= nb then 0
    else if same(i, j) then Lcs(same, i + 1, na, j + 1, nb) + 1
    else
      var down, right := Lcs(same, i + 1, na, j, nb), Lcs(same, i, na, j + 1, nb);
      if down >= right then down else right
  }

  /** `same` compares what a key says of each side; a side without a key (a blank paragraph) matches nothing. */
  ghost predicate Keyed<K(!new)>(same: Same, na: nat, nb: nat, keyA: nat -> K, keyB: nat -> K, blank: K -> bool) {
    forall i: nat, j: nat | i < na && j < nb :: same(i, j) <==> keyA(i) == keyB(j) && !blank(keyA(i))
  }

  /** `c` is a subsequence of the keys from `i` up to `n`, none of them blank. */
  ghost predicate Subsequence<K>(c: seq<K>, key: nat -> K, i: nat, n: nat, blank: K -> bool)
    decreases n - i
  {
    c == [] || (i < n && ((c[0] == key(i) && !blank(key(i)) && Subsequence(c[1..], key, i + 1, n, blank))
                          || Subsequence(c, key, i + 1, n, blank)))
  }

  lemma {:induction false} SubsequenceTail<K>(c: seq<K>, key: nat -> K, i: nat, n: nat, blank: K -> bool)
    requires c != [] && Subsequence(c, key, i, n, blank)
    ensures i < n && Subsequence(c[1..], key, i + 1, n, blank)
    decreases n - i
  {
    if Subsequence(c, key, i + 1, n, blank) {
      SubsequenceTail(c, key, i + 1, n, blank);
      SubsequenceLater(c[1..], key, i + 1, n, blank);
    }
  }

  lemma {:induction false} SubsequenceLater<K>(c: seq<K>, key: nat -> K, i: nat, n: nat, blank: K -> bool)
    requires i < n && Subsequence(c, key, i + 1, n, blank)
    ensures Subsequence(c, key, i, n, blank)
  {
  }

  /** Nothing common to both sides is longer than `Lcs`. */
  lemma {:induction false} LcsIsLongest<K(!new)>(c: seq<K>, same: Same, i: nat, na: nat, j: nat, nb: nat,
                                                keyA: nat -> K, keyB: nat -> K, blank: K -> bool)
    requires Keyed(same, na, nb, keyA, keyB, blank)
    requires Subsequence(c, keyA, i, na, blank) && Subsequence(c, keyB, j, nb, blank)
    ensures |c| <= Lcs(same, i, na, j, nb)
    decreases na - i + nb - j
  {
    if c != [] {
      SubsequenceTail(c, keyA, i, na, blank);
      SubsequenceTail(c, keyB, j, nb, blank);
      if same(i, j) {
        LcsIsLongest(c[1..], same, i + 1, na, j + 1, nb, keyA, keyB, blank);
      } else if Subsequence(c, keyA, i + 1, na, blank) {
        LcsIsLongest(c, same, i + 1, na, j, nb, keyA, keyB, blank);
      } else {
        LcsIsLongest(c, same, i, na, j + 1, nb, keyA, keyB, blank);
      }
    }
  }

  /** Trimming one matching pair off the end takes exactly one off the length. */
  lemma {:induction false} LcsTrimEnd(same: Same, i: nat, na: nat, j: nat, nb: nat)
    requires i <= na && j <= nb && same(na, nb)
    ensures Lcs(same, i, na + 1, j, nb + 1) == Lcs(same, i, na, j, nb) + 1
    decreases na - i + nb - j
  {
    if i < na && j < nb {
      if same(i, j) {
        LcsTrimEnd(same, i + 1, na, j + 1, nb);
      } else {
        LcsTrimEnd(same, i + 1, na, j, nb);
        LcsTrimEnd(same, i, na, j + 1, nb);
      }
    } else if i < na {
      if !same(i, nb) {
        LcsTrimEnd(same, i + 1, na, j, nb);
      }
    } else if j < nb {
      if !same(na, j) {
        LcsTrimEnd(same, i, na, j + 1, nb);
      }
    }
  }

  lemma {:induction false} LcsTrim(same: Same, start: nat, endA: nat, na: nat, endB: nat, nb: nat)
    requires start <= endA <= na && start <= endB <= nb && na - endA == nb - endB
    requires Diagonal(same, 0, 0, start) && Diagonal(same, endA, endB, na - endA)
    ensures Lcs(same, 0, na, 0, nb) == start + Lcs(same, start, endA, start, endB) + (na - endA)
  {
    LcsTrimEnds(same, start, endA, na, endB, nb);
    LcsTrimStarts(same, start, na, nb, 0);
  }

  lemma {:induction false} LcsTrimStarts(same: Same, start: nat, na: nat, nb: nat, i: nat)
    requires i <= start <= na && start <= nb
    requires Diagonal(same, 0, 0, start)
    ensures Lcs(same, i, na, i, nb) == start - i + Lcs(same, start, na, start, nb)
    decreases start - i
  {
    if i < start {
      LcsTrimStarts(same, start, na, nb, i + 1);
    }
  }

  lemma {:induction false} LcsTrimEnds(same: Same, start: nat, endA: nat, na: nat, endB: nat, nb: nat)
    requires start <= endA <= na && start <= endB <= nb && na - endA == nb - endB
    requires Diagonal(same, endA, endB, na - endA)
    ensures Lcs(same, start, na, start, nb) == Lcs(same, start, endA, start, endB) + (na - endA)
    decreases na - endA
  {
    if endA < na {
      assert same(na - 1, nb - 1);
      LcsTrimEnd(same, start, na - 1, start, nb - 1);
      LcsTrimEnds(same, start, endA, na - 1, endB, nb - 1);
    }
  }

  // ---- the edit script ---------------------------------------------------------------

  /** One step of a script: a matched pair, an insertion from the right side, a deletion from the left. */
  datatype Step = Both(i: nat, j: nat) | Ins(j: nat) | Del(i: nat)

  /** The backtrack through the table; ties insert before they delete. */
  function Walk(same: Same, i: nat, na: nat, j: nat, nb: nat): (s: seq<Step>)
    requires i <= na && j <= nb
    decreases na - i + nb - j
  {
    if i >= na && j >= nb then []
    else if i < na && j < nb && same(i, j) then [Both(i, j)] + Walk(same, i + 1, na, j + 1, nb)
    else if j < nb && (i >= na || Lcs(same, i, na, j + 1, nb) >= Lcs(same, i + 1, na, j, nb)) then
      [Ins(j)] + Walk(same, i, na, j + 1, nb)
    else [Del(i)] + Walk(same, i + 1, na, j, nb)
  }

  /** A run of matched pairs. */
  function Pairs(i: nat, j: nat, n: nat): seq<Step> { seq(n, k requires 0 <= k < n => Both(i + k, j + k)) }

  function Dels(i: nat, n: nat): seq<Step> { seq(n, k requires 0 <= k < n => Del(i + k)) }
  function Inss(j: nat, n: nat): seq<Step> { seq(n, k requires 0 <= k < n => Ins(j + k)) }

  /** The middle, once prefix and suffix are trimmed: walked, or replaced outright when `past` the cap. */
  function Middle(same: Same, start: nat, endA: nat, endB: nat, past: bool): seq<Step>
    requires start <= endA && start <= endB
  {
    if past then Dels(start, endA - start) + Inss(start, endB - start)
    else Walk(same, start, endA, start, endB)
  }

  /** The whole script of a diff trimmed to `start`, `endA`, `endB`. */
  function Script(same: Same, start: nat, endA: nat, na: nat, endB: nat, past: bool): seq<Step>
    requires start <= endA <= na && start <= endB
  {
    Pairs(0, 0, start) + Middle(same, start, endA, endB, past) + Pairs(endA, endB, na - endA)
  }

  /** Trimmed as far as the code trims: the longest common prefix, then the longest common suffix of what is left. */
  ghost predicate Trimmed(same: Same, start: nat, endA: nat, na: nat, endB: nat, nb: nat) {
    && start <= endA <= na && start <= endB <= nb && na - endA == nb - endB
    && Diagonal(same, 0, 0, start) && Diagonal(same, endA, endB, na - endA)
    && (start < na && start < nb ==> !same(start, start))
    && (start < endA && start < endB ==> !same(endA - 1, endB - 1))
  }

  /** How many pairs a script keeps. */
  function Kept(script: seq<Step>): nat {
    if script == [] then 0 else (if script[0].Both? then 1 else 0) + Kept(script[1..])
  }

  lemma {:induction false} KeptAppend(s: seq<Step>, t: seq<Step>)
    ensures Kept(s + t) == Kept(s) + Kept(t)
  {
    if s == [] {
      assert s + t == t;
    } else {
      KeptAppend(s[1..], t);
      assert (s + t)[1..] == s[1..] + t;
    }
  }

  lemma {:induction false} WalkKeepsLcs(same: Same, i: nat, na: nat, j: nat, nb: nat)
    requires i <= na && j <= nb
    ensures Kept(Walk(same, i, na, j, nb)) == Lcs(same, i, na, j, nb)
    decreases na - i + nb - j
  {
    if i < na && j < nb && same(i, j) {
      WalkKeepsLcs(same, i + 1, na, j + 1, nb);
    } else if j < nb && (i >= na || Lcs(same, i, na, j + 1, nb) >= Lcs(same, i + 1, na, j, nb)) {
      WalkKeepsLcs(same, i, na, j + 1, nb);
    } else if i < na {
      WalkKeepsLcs(same, i + 1, na, j, nb);
    }
  }

  lemma {:induction false} PairsKept(i: nat, j: nat, n: nat)
    ensures Kept(Pairs(i, j, n)) == n
    decreases n
  {
    if n > 0 {
      PairsKept(i + 1, j + 1, n - 1);
      assert Pairs(i, j, n)[1..] == Pairs(i + 1, j + 1, n - 1);
    }
  }

  lemma {:induction false} NoPairsKept(s: seq<Step>)
    requires forall k | 0 <= k < |s| :: !s[k].Both?
    ensures Kept(s) == 0
  {
    if s != [] {
      NoPairsKept(s[1..]);
    }
  }

  /** With no matching pair anywhere between them, two middles have nothing in common, and the other way round. */
  lemma {:induction false} NothingCommon(same: Same, i: nat, na: nat, j: nat, nb: nat)
    requires i <= na && j <= nb
    ensures Lcs(same, i, na, j, nb) == 0 <==> forall x: nat, y: nat | i <= x < na && j <= y < nb :: !same(x, y)
    decreases na - i + nb - j
  {
    if i < na && j < nb {
      if !same(i, j) {
        NothingCommon(same, i + 1, na, j, nb);
        NothingCommon(same, i, na, j + 1, nb);
        if forall x: nat, y: nat | i + 1 <= x < na && j <= y < nb :: !same(x, y) {
          if forall x: nat, y: nat | i <= x < na && j + 1 <= y < nb :: !same(x, y) {
            assert forall x: nat, y: nat | i <= x < na && j <= y < nb :: !same(x, y);
          }
        }
      }
    }
  }

  /**
   * Minimality. A script keeps exactly the longest common subsequence of the two whole sides when the middle is
   * walked, and when it is replaced outright exactly when the two middles have no matching pair.
   */
  lemma {:induction false} ScriptIsMinimal(same: Same, start: nat, endA: nat, na: nat, endB: nat, nb: nat, past: bool)
    requires Trimmed(same, start, endA, na, endB, nb)
    ensures Kept(Script(same, start, endA, na, endB, past)) <= Lcs(same, 0, na, 0, nb)
    ensures Kept(Script(same, start, endA, na, endB, past)) == Lcs(same, 0, na, 0, nb)
       <==> !past
            || (forall x: nat, y: nat | start <= x < endA && start <= y < endB :: !same(x, y))
  {
    ScriptKept(same, start, endA, na, endB, past);
    LcsTrim(same, start, endA, na, endB, nb);
    NothingCommon(same, start, endA, start, endB);
    if !past {
      WalkKeepsLcs(same, start, endA, start, endB);
    }
  }

  lemma {:induction false} ScriptKept(same: Same, start: nat, endA: nat, na: nat, endB: nat, past: bool)
    requires start <= endA <= na && start <= endB
    ensures Kept(Script(same, start, endA, na, endB, past))
         == start + (if past then 0 else Kept(Walk(same, start, endA, start, endB))) + (na - endA)
  {
    var middle := Middle(same, start, endA, endB, past);
    KeptAppend(Pairs(0, 0, start) + middle, Pairs(endA, endB, na - endA));
    KeptAppend(Pairs(0, 0, start), middle);
    PairsKept(0, 0, start);
    PairsKept(endA, endB, na - endA);
    if past {
      NoPairsKept(middle);
    }
  }

  /** The keys of the pairs a script keeps. */
  ghost function KeptKeys<K>(script: seq<Step>, keyA: nat -> K): seq<K> {
    if script == [] then []
    else (if script[0].Both? then [keyA(script[0].i)] else []) + KeptKeys(script[1..], keyA)
  }

  /** What a script keeps really is common to both sides, so `Kept` is the length of a common subsequence. */
  lemma {:induction false} KeptIsCommon<K(!new)>(s: seq<Step>, same: Same, i: nat, na: nat, j: nat, nb: nat,
                                                keyA: nat -> K, keyB: nat -> K, blank: K -> bool)
    requires Covers(s, same, i, na, j, nb) && Keyed(same, na, nb, keyA, keyB, blank)
    ensures |KeptKeys(s, keyA)| == Kept(s)
    ensures Subsequence(KeptKeys(s, keyA), keyA, i, na, blank)
    ensures Subsequence(KeptKeys(s, keyA), keyB, j, nb, blank)
    decreases s
  {
    if s != [] {
      match s[0]
      case Both(_, _) =>
        KeptIsCommon(s[1..], same, i + 1, na, j + 1, nb, keyA, keyB, blank);
        assert KeptKeys(s, keyA)[1..] == KeptKeys(s[1..], keyA);
      case Ins(_) =>
        KeptIsCommon(s[1..], same, i, na, j + 1, nb, keyA, keyB, blank);
        SubsequenceLater(KeptKeys(s[1..], keyA), keyB, j, nb, blank);
        assert KeptKeys(s, keyA) == KeptKeys(s[1..], keyA);
      case Del(_) =>
        KeptIsCommon(s[1..], same, i + 1, na, j, nb, keyA, keyB, blank);
        SubsequenceLater(KeptKeys(s[1..], keyA), keyA, i, na, blank);
        assert KeptKeys(s, keyA) == KeptKeys(s[1..], keyA);
    }
  }

  /** Every step of a script in order: the left side once each from i to na, the right side once each from j to nb. */
  ghost predicate Covers(s: seq<Step>, same: Same, i: nat, na: nat, j: nat, nb: nat)
    decreases s
  {
    if s == [] then i == na && j == nb
    else match s[0]
      case Both(x, y) => x == i < na && y == j < nb && same(i, j) && Covers(s[1..], same, i + 1, na, j + 1, nb)
      case Ins(y) => y == j < nb && Covers(s[1..], same, i, na, j + 1, nb)
      case Del(x) => x == i < na && Covers(s[1..], same, i + 1, na, j, nb)
  }

  lemma {:induction false} WalkCovers(same: Same, i: nat, na: nat, j: nat, nb: nat)
    requires i <= na && j <= nb
    ensures Covers(Walk(same, i, na, j, nb), same, i, na, j, nb)
    decreases na - i + nb - j
  {
    var w := Walk(same, i, na, j, nb);
    if i >= na && j >= nb {
    } else if i < na && j < nb && same(i, j) {
      WalkCovers(same, i + 1, na, j + 1, nb);
      assert w[1..] == Walk(same, i + 1, na, j + 1, nb);
    } else if j < nb && (i >= na || Lcs(same, i, na, j + 1, nb) >= Lcs(same, i + 1, na, j, nb)) {
      WalkCovers(same, i, na, j + 1, nb);
      assert w[1..] == Walk(same, i, na, j + 1, nb);
    } else {
      WalkCovers(same, i + 1, na, j, nb);
      assert w[1..] == Walk(same, i + 1, na, j, nb);
    }
  }

  lemma {:induction false} CoversAppend(s: seq<Step>, t: seq<Step>, same: Same, i: nat, ma: nat, na: nat, j: nat,
                                        mb: nat, nb: nat)
    requires Covers(s, same, i, ma, j, mb) && Covers(t, same, ma, na, mb, nb) && ma <= na && mb <= nb
    ensures Covers(s + t, same, i, na, j, nb)
    decreases s
  {
    if s == [] {
      assert s + t == t;
    } else {
      assert (s + t)[1..] == s[1..] + t;
      match s[0]
      case Both(_, _) => CoversAppend(s[1..], t, same, i + 1, ma, na, j + 1, mb, nb);
      case Ins(_) => CoversAppend(s[1..], t, same, i, ma, na, j + 1, mb, nb);
      case Del(_) => CoversAppend(s[1..], t, same, i + 1, ma, na, j, mb, nb);
    }
  }

  lemma {:induction false} PairsCover(same: Same, i: nat, j: nat, n: nat)
    requires Diagonal(same, i, j, n)
    ensures Covers(Pairs(i, j, n), same, i, i + n, j, j + n)
    decreases n
  {
    if n > 0 {
      assert same(i, j);
      PairsCover(same, i + 1, j + 1, n - 1);
      assert Pairs(i, j, n)[1..] == Pairs(i + 1, j + 1, n - 1);
    }
  }

  lemma {:induction false} DelsCover(same: Same, i: nat, j: nat, n: nat)
    ensures Covers(Dels(i, n), same, i, i + n, j, j)
    decreases n
  {
    if n > 0 {
      DelsCover(same, i + 1, j, n - 1);
      assert Dels(i, n)[1..] == Dels(i + 1, n - 1);
    }
  }

  lemma {:induction false} InssCover(same: Same, i: nat, j: nat, n: nat)
    ensures Covers(Inss(j, n), same, i, i, j, j + n)
    decreases n
  {
    if n > 0 {
      InssCover(same, i, j + 1, n - 1);
      assert Inss(j, n)[1..] == Inss(j + 1, n - 1);
    }
  }

  lemma {:induction false} ScriptCovers(same: Same, start: nat, endA: nat, na: nat, endB: nat, nb: nat, past: bool)
    requires Trimmed(same, start, endA, na, endB, nb)
    ensures Covers(Script(same, start, endA, na, endB, past), same, 0, na, 0, nb)
  {
    var middle := Middle(same, start, endA, endB, past);
    PairsCover(same, 0, 0, start);
    PairsCover(same, endA, endB, na - endA);
    if past {
      DelsCover(same, start, start, endA - start);
      InssCover(same, endA, start, endB - start);
      CoversAppend(Dels(start, endA - start), Inss(start, endB - start), same, start, endA, endA, start, start, endB);
    } else {
      WalkCovers(same, start, endA, start, endB);
    }
    CoversAppend(Pairs(0, 0, start), middle, same, 0, start, endA, 0, start, endB);
    CoversAppend(Pairs(0, 0, start) + middle, Pairs(endA, endB, na - endA), same, 0, endA, na, 0, endB, nb);
  }
}
