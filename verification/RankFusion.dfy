/**
 * Merging two rankings by weighted reciprocal rank fusion (`retrieve`, gateway/src/ask/store.ts). Scores are exact.
 */
module RankFusion {
  import opened Sorting

  type Id = string

  const DEPTH := 20
  const RRF_K := 60.0
  const KEYWORD_WEIGHT := 0.01

  /** What a ranking contributes: its first DEPTH. */
  function Top(ranking: seq<Id>): seq<Id> { if |ranking| <= DEPTH then ranking else ranking[..DEPTH] }

  /** 1 for the first. */
  function Rank(ranking: seq<Id>, id: Id): (r: nat)
    requires id in ranking
    ensures 1 <= r <= |ranking| && ranking[r - 1] == id
  {
    if ranking[0] == id then 1 else Rank(ranking[1..], id) + 1
  }

  function Worth(weight: real, rank: nat): real
    requires rank >= 1
  {
    weight / (RRF_K + rank as real)
  }

  function Share(weight: real, ranking: seq<Id>, id: Id): real {
    if id in ranking then Worth(weight, Rank(ranking, id)) else 0.0
  }

  function Score(meaning: seq<Id>, keywords: seq<Id>, weight: real, id: Id): real {
    Share(1.0, meaning, id) + Share(weight, keywords, id)
  }

  /** Every candidate either ranking found, once, best score first; equal scores in any order. */
  ghost predicate IsFused(fused: seq<Id>, meaning: seq<Id>, keywords: seq<Id>, weight: real) {
    && Distinct(fused)
    && (forall id :: id in fused <==> id in meaning || id in keywords)
    && (forall i, j | 0 <= i < j < |fused| ::
          Score(meaning, keywords, weight, fused[i]) >= Score(meaning, keywords, weight, fused[j]))
  }

  // ---- what a keyword is worth -------------------------------------------------------------------

  /** A first keyword place is worth less than the step from meaning rank `r` to the next. */
  predicate Steady(weight: real, r: nat) { weight * Steps(r) < RRF_K + 1.0 }

  /** One over the step from rank `r` to the next. */
  function Steps(r: nat): real { (RRF_K + r as real) * (RRF_K + r as real + 1.0) }

  lemma {:induction false} Divide(x: real, y: real)
    requires y > 0.0
    ensures (x / y) * y == x
  {
  }

  /** Comparing fractions by cross-multiplying. */
  lemma {:induction false} Cross(a: real, x: real, b: real, y: real)
    requires x > 0.0 && y > 0.0
    ensures a / x < b / y <==> a * y < b * x
  {
    Divide(a, x);
    Divide(b, y);
    var p, q := a / x, b / y;
    assert a * y == p * (x * y) && b * x == q * (x * y);
    assert x * y > 0.0;
    if p < q { MulLess(p, q, x * y); } else { MulLess(q, p, x * y); }
  }

  lemma {:induction false} MulLess(p: real, q: real, m: real)
    requires m > 0.0 && p <= q
    ensures p * m <= q * m && (p < q ==> p * m < q * m)
  {
    assert q * m - p * m == (q - p) * m;
  }

  lemma {:induction false} Regroup(a: real, b: real, c: real)
    ensures a * (b * c) == (a * b) * c
  {
  }

  lemma {:induction false} Spread(p: real, q: real, d: real, m: real)
    ensures (p - q - d) * m == p * m - q * m - d * m
  {
  }

  lemma {:induction false} Nought(z: real, m: real)
    requires z * m == 0.0 && m > 0.0
    ensures z == 0.0
  {
  }

  lemma {:induction false} OneStep(x: real)
    requires x > 0.0
    ensures 1.0 / x - 1.0 / (x + 1.0) == 1.0 / (x * (x + 1.0))
  {
    var y := x + 1.0;
    var m := x * y;
    var p, q, d := 1.0 / x, 1.0 / y, 1.0 / m;
    Divide(1.0, x);
    Divide(1.0, y);
    Divide(1.0, m);
    Regroup(p, x, y);
    Regroup(q, y, x);
    assert y * x == m;
    assert p * m == y;
    assert q * m == x;
    Spread(p, q, d, m);
    Nought(p - q - d, m);
  }

  /** Exactly when a first keyword place cannot make up one step of meaning. */
  lemma {:induction false} StepBound(weight: real, r: nat)
    requires r >= 1
    ensures Steady(weight, r) <==> Worth(1.0, r) > Worth(1.0, r + 1) + Worth(weight, 1)
  {
    var x := RRF_K + r as real;
    OneStep(x);
    assert Worth(1.0, r) == 1.0 / x && Worth(1.0, r + 1) == 1.0 / (x + 1.0);
    assert Steps(r) == x * (x + 1.0) > 0.0;
    Cross(weight, RRF_K + 1.0, 1.0, Steps(r));
  }

  lemma {:induction false} WorthFalls(weight: real, r: nat, s: nat)
    requires weight >= 0.0 && 1 <= r <= s
    ensures 0.0 <= Worth(weight, s) <= Worth(weight, r)
  {
    var x, y := RRF_K + r as real, RRF_K + s as real;
    Cross(weight, x, weight, y);
    Divide(weight, y);
    if weight * y < weight * x { MulLess(x, y, weight + 1.0); }
    if weight / y < 0.0 { MulLess(weight / y, 0.0, y); }
    WeightedOrder(weight, x, y);
  }

  lemma {:induction false} WeightedOrder(weight: real, x: real, y: real)
    requires weight >= 0.0 && x <= y
    ensures weight * x <= weight * y
  {
    assert weight * y - weight * x == weight * (y - x);
  }

  /** Steps of meaning shrink down the list, so what holds at a rank holds above it. */
  lemma {:induction false} SteadyAbove(weight: real, r: nat, s: nat)
    requires weight >= 0.0 && r <= s && Steady(weight, s)
    ensures Steady(weight, r)
  {
    var x, y := RRF_K + r as real, RRF_K + s as real;
    MulLess(x, y, x + 1.0);
    WeightedOrder(y, x + 1.0, y + 1.0);
    WeightedOrder(weight, Steps(r), Steps(s));
  }

  /** At the default weight, 0.01: down to rank 17, and not at rank 18. */
  lemma {:induction false} SteadyTo17(r: nat)
    ensures Steady(KEYWORD_WEIGHT, r) <==> r <= 17
  {
    if r <= 17 {
      assert Steady(KEYWORD_WEIGHT, 17);
      SteadyAbove(KEYWORD_WEIGHT, r, 17);
    } else if Steady(KEYWORD_WEIGHT, r) {
      SteadyAbove(KEYWORD_WEIGHT, 18, r);
    }
  }

  // ---- the fused order ------------------------------------------------------------------------------

  lemma {:induction false} RankOf(ranking: seq<Id>, i: nat)
    requires Distinct(ranking) && i < |ranking|
    ensures Rank(ranking, ranking[i]) == i + 1
  {
  }

  lemma {:induction false} RankBeyond(ranking: seq<Id>, id: Id, n: nat)
    requires id in ranking && n <= |ranking| && id !in ranking[..n]
    ensures Rank(ranking, id) > n
    decreases n
  {
    if n > 0 {
      assert ranking[..n][0] == ranking[0];
      assert ranking[1..][..n - 1] == ranking[..n][1..];
      RankBeyond(ranking[1..], id, n - 1);
    }
  }

  lemma {:induction false} ShareBound(weight: real, ranking: seq<Id>, id: Id)
    requires weight >= 0.0
    ensures 0.0 <= Share(weight, ranking, id) <= Worth(weight, 1)
  {
    if id in ranking {
      WorthFalls(weight, 1, Rank(ranking, id));
    } else {
      WorthFalls(weight, 1, 1);
    }
  }

  /** Whatever the keywords say, the i-th by meaning outscores all below it. */
  lemma {:induction false} Outscores(meaning: seq<Id>, keywords: seq<Id>, weight: real, i: nat, id: Id)
    requires Distinct(meaning) && i < |meaning| && weight >= 0.0 && Steady(weight, i + 1)
    requires (id in meaning || id in keywords) && id !in meaning[..i + 1]
    ensures Score(meaning, keywords, weight, meaning[i]) > Score(meaning, keywords, weight, id)
  {
    RankOf(meaning, i);
    ShareBound(weight, keywords, meaning[i]);
    ShareBound(weight, keywords, id);
    StepBound(weight, i + 1);
    if id in meaning {
      var r := Rank(meaning, id);
      RankBeyond(meaning, id, i + 1);
      WorthFalls(1.0, i + 2, r);
    } else {
      WorthFalls(1.0, i + 2, i + 2);
    }
  }

  /**
   * Keywords never reorder the top. While a keyword place is worth less than a step of meaning, the best n by meaning
   * come first, in their order, whatever the keywords rank.
   */
  lemma {:induction false} TopKeepsOrder(fused: seq<Id>, meaning: seq<Id>, keywords: seq<Id>, weight: real, n: nat)
    requires IsFused(fused, meaning, keywords, weight) && Distinct(meaning)
    requires weight >= 0.0 && Steady(weight, n) && n <= |meaning|
    ensures n <= |fused| && fused[..n] == meaning[..n]
    decreases n
  {
    if n > 0 {
      var i := n - 1;
      SteadyAbove(weight, i, n);
      TopKeepsOrder(fused, meaning, keywords, weight, i);
      NextInPlace(fused, meaning, keywords, weight, i);
      assert fused[..n] == fused[..i] + [fused[i]] && meaning[..n] == meaning[..i] + [meaning[i]];
    }
  }

  /** After the first i by meaning comes the next: nothing else scores as much. */
  lemma {:induction false} NextInPlace(fused: seq<Id>, meaning: seq<Id>, keywords: seq<Id>, weight: real, i: nat)
    requires IsFused(fused, meaning, keywords, weight) && Distinct(meaning)
    requires weight >= 0.0 && Steady(weight, i + 1) && i < |meaning|
    requires i <= |fused| && fused[..i] == meaning[..i]
    ensures i < |fused| && fused[i] == meaning[i]
  {
    var p := PlaceOf(fused, meaning, keywords, weight, i);
    if p > i {
      NotAmongFirst(fused, meaning, i, p);
      Outscores(meaning, keywords, weight, i, fused[i]);
    }
  }

  lemma {:induction false} PlaceOf(fused: seq<Id>, meaning: seq<Id>, keywords: seq<Id>, weight: real,
                                   i: nat) returns (p: nat)
    requires IsFused(fused, meaning, keywords, weight) && Distinct(meaning)
    requires i < |meaning| && i <= |fused| && fused[..i] == meaning[..i]
    ensures i <= p < |fused| && fused[p] == meaning[i] && fused[i] in fused
    ensures Score(meaning, keywords, weight, fused[i]) >= Score(meaning, keywords, weight, fused[p])
  {
    assert meaning[i] in fused;
    p :| 0 <= p < |fused| && fused[p] == meaning[i];
    forall k | 0 <= k < i ensures fused[k] == meaning[k] {
      assert fused[..i][k] == meaning[..i][k];
    }
  }

  lemma {:induction false} NotAmongFirst(fused: seq<Id>, meaning: seq<Id>, i: nat, p: nat)
    requires Distinct(fused) && i < |meaning| && i < p < |fused| && fused[p] == meaning[i] && fused[..i] == meaning[..i]
    ensures fused[i] !in meaning[..i + 1]
  {
    forall k | 0 <= k < i + 1 ensures meaning[k] != fused[i] {
      assert k < i ==> meaning[..i][k] == fused[..i][k];
    }
  }

  function AtMost(n: nat, m: nat): nat { if n <= m then n else m }

  /**
   * At weight 0.01 that is the first 17: of the candidates by distance, and by keywords, the `limit` retrieved begin
   * with the 17 nearest, or all of them if there are fewer, nearest first.
   */
  lemma {:induction false} First17KeepOrder(fused: seq<Id>, byDistance: seq<Id>, byKeywords: seq<Id>, limit: nat)
    requires IsFused(fused, Top(byDistance), Top(byKeywords), KEYWORD_WEIGHT) && Distinct(byDistance)
    ensures var n := AtMost(AtMost(17, limit), |byDistance|);
            n <= |fused| && fused[..AtMost(limit, |fused|)][..n] == byDistance[..n]
  {
    var n, meaning := AtMost(AtMost(17, limit), |byDistance|), Top(byDistance);
    assert forall i, j | 0 <= i < j < |meaning| :: meaning[i] == byDistance[i] && meaning[j] == byDistance[j];
    SteadyTo17(n);
    TopKeepsOrder(fused, meaning, Top(byKeywords), KEYWORD_WEIGHT, n);
    assert meaning[..n] == byDistance[..n];
    assert fused[..AtMost(limit, |fused|)][..n] == fused[..n];
  }

  /** No more than the first DEPTH of either ranking are candidates. */
  lemma {:induction false} CandidatesAreTop(fused: seq<Id>, byDistance: seq<Id>, byKeywords: seq<Id>, weight: real)
    requires IsFused(fused, Top(byDistance), Top(byKeywords), weight)
    ensures forall id | id in fused :: AmongFirst(byDistance, DEPTH, id) || AmongFirst(byKeywords, DEPTH, id)
  {
    forall id | id in fused ensures AmongFirst(byDistance, DEPTH, id) || AmongFirst(byKeywords, DEPTH, id) {
      if i :| 0 <= i < |Top(byDistance)| && Top(byDistance)[i] == id {
        assert byDistance[i] == id;
      } else {
        var j :| 0 <= j < |Top(byKeywords)| && Top(byKeywords)[j] == id;
        assert byKeywords[j] == id;
      }
    }
  }

  ghost predicate AmongFirst(ranking: seq<Id>, n: nat, id: Id) {
    exists i :: 0 <= i < n && i < |ranking| && ranking[i] == id
  }

  /** A candidate only keywords found never passes one that meaning ranked. */
  lemma {:induction false} KeywordOnlyComesAfter(meaning: seq<Id>, keywords: seq<Id>, a: Id, b: Id)
    requires |meaning| <= DEPTH && a in meaning && b !in meaning
    ensures Score(meaning, keywords, KEYWORD_WEIGHT, a) > Score(meaning, keywords, KEYWORD_WEIGHT, b)
  {
    ShareBound(KEYWORD_WEIGHT, keywords, a);
    ShareBound(KEYWORD_WEIGHT, keywords, b);
    WorthFalls(1.0, Rank(meaning, a), DEPTH);
    Cross(KEYWORD_WEIGHT, 61.0, 1.0, 80.0);
  }

  /**
   * The bound is exact: wherever a keyword place is worth a step or more, the next by meaning, if it alone is found by
   * keywords, scores at least as much as the one above it.
   */
  lemma {:induction false} OvertakesBelowBound(meaning: seq<Id>, weight: real, r: nat)
    requires Distinct(meaning) && 1 <= r < |meaning| && weight >= 0.0
    ensures Score(meaning, [meaning[r]], weight, meaning[r - 1]) > Score(meaning, [meaning[r]], weight, meaning[r])
       <==> Steady(weight, r)
  {
    RankOf(meaning, r - 1);
    RankOf(meaning, r);
    StepBound(weight, r);
    assert meaning[r - 1] != meaning[r];
    assert Rank([meaning[r]], meaning[r]) == 1;
  }
}
