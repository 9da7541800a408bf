/** Facts about sequences that the verifier wants named. */
module Sequences {
  lemma {:induction false} Assoc<T>(x: seq<T>, y: seq<T>, z: seq<T>)
    ensures (x + y) + z == x + (y + z)
  {
  }

  lemma {:induction false} TakeOneMore<T>(xs: seq<T>, n: nat)
    requires n < |xs|
    ensures xs[..n + 1] == xs[..n] + [xs[n]]
  {
  }

  lemma {:induction false} TailOfAppend<T>(xs: seq<T>, ys: seq<T>)
    requires xs != []
    ensures (xs + ys)[0] == xs[0] && (xs + ys)[1..] == xs[1..] + ys
  {
  }

  lemma {:induction false} TakeAll<T>(xs: seq<T>)
    ensures xs[..|xs|] == xs
  {
  }

  lemma {:induction false} SplitFrom<T>(xs: seq<T>, s: nat, k: nat)
    requires s <= k <= |xs|
    ensures xs[s..] == xs[s..k] + xs[k..]
  {
  }

  lemma {:induction false} SplitAt<T>(xs: seq<T>, k: nat)
    requires k <= |xs|
    ensures xs == xs[..k] + xs[k..]
  {
  }

  lemma {:induction false} SliceFrom<T>(xs: seq<T>, s: nat, m: nat, i: nat)
    requires s + i <= m <= |xs|
    ensures xs[s..m][i..] == xs[s + i..m]
  {
  }

  lemma {:induction false} SplitAround<T>(xs: seq<T>, s: nat, i: nat, m: nat)
    requires s <= i < m <= |xs|
    ensures xs[s..m] == xs[s..i] + ([xs[i]] + xs[i + 1..m])
  {
  }

  lemma {:induction false} SplitSlice<T>(xs: seq<T>, a: nat, d: nat, m: nat)
    requires a <= d <= m <= |xs|
    ensures xs[a..m] == xs[a..d] + xs[d..m]
  {
  }
}
