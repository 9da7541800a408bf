/** The language's stable `sort`, and why its result does not depend on where the elements started. */
module Sorting {
  /** `before` is irreflexive and transitive. */
  ghost predicate StrictOrder<T(!new)>(before: (T, T) -> bool) {
    && (forall x :: !before(x, x))
    && (forall x, y, z :: before(x, y) && before(y, z) ==> before(x, z))
  }

  /** Any two different elements of `xs` are comparable. */
  ghost predicate TotalOn<T>(before: (T, T) -> bool, xs: set<T>) {
    forall x, y | x in xs && y in xs && x != y :: before(x, y) || before(y, x)
  }

  ghost predicate Ordered<T>(before: (T, T) -> bool, xs: seq<T>) {
    forall i, j | 0 <= i < j < |xs| :: before(xs[i], xs[j])
  }

  ghost predicate Distinct<T>(xs: seq<T>) {
    forall i, j | 0 <= i < j < |xs| :: xs[i] != xs[j]
  }

  ghost function Elements<T>(xs: seq<T>): (s: set<T>) {
    set x | x in xs
  }

  /** Stable: `x` goes in front of everything not strictly before it. */
  function Insert<T>(before: (T, T) -> bool, x: T, xs: seq<T>): (r: seq<T>)
    ensures multiset(r) == multiset(xs) + multiset{x}
  {
    if xs == [] then [x]
    else if !before(xs[0], x) then [x] + xs
    else
      assert xs == [xs[0]] + xs[1..];
      [xs[0]] + Insert(before, x, xs[1..])
  }

  function Sort<T>(before: (T, T) -> bool, xs: seq<T>): (r: seq<T>)
    ensures multiset(r) == multiset(xs)
  {
    if xs == [] then []
    else
      assert xs == [xs[0]] + xs[1..];
      Insert(before, xs[0], Sort(before, xs[1..]))
  }

  lemma {:induction false} SameMembers<T>(xs: seq<T>, ys: seq<T>)
    requires multiset(xs) == multiset(ys)
    ensures |xs| == |ys|
    ensures forall x :: x in xs <==> x in ys
    ensures Elements(xs) == Elements(ys)
  {
    assert |multiset(xs)| == |multiset(ys)|;
    forall x ensures x in xs <==> x in ys {
      assert x in xs <==> x in multiset(xs);
      assert x in ys <==> x in multiset(ys);
    }
  }

  lemma {:induction false} InsertOrdered<T(!new)>(before: (T, T) -> bool, x: T, xs: seq<T>)
    requires StrictOrder(before) && Ordered(before, xs) && x !in xs
    requires TotalOn(before, Elements(xs) + {x})
    ensures Ordered(before, Insert(before, x, xs))
  {
    if xs != [] && before(xs[0], x) {
      var rest := Insert(before, x, xs[1..]);
      assert TotalOn(before, Elements(xs[1..]) + {x}) by {
        assert forall y | y in xs[1..] :: y in xs;
      }
      InsertOrdered(before, x, xs[1..]);
      forall j | 0 <= j < |rest| ensures before(xs[0], rest[j]) {
        assert rest[j] in multiset(rest);
        assert rest[j] == x || rest[j] in xs[1..];
      }
    } else if xs != [] {
      assert before(x, xs[0]) by { assert xs[0] in Elements(xs) && x != xs[0]; }
      forall j | 0 <= j < |xs| ensures before(x, xs[j]) {
        if j > 0 { assert before(xs[0], xs[j]); }
      }
    }
  }

  lemma {:induction false} SortOrdered<T(!new)>(before: (T, T) -> bool, xs: seq<T>)
    requires StrictOrder(before) && Distinct(xs) && TotalOn(before, Elements(xs))
    ensures Ordered(before, Sort(before, xs))
  {
    if xs != [] {
      var rest := xs[1..];
      assert xs == [xs[0]] + rest;
      NotLater(xs);
      SortOrdered(before, rest);
      var sorted := Sort(before, rest);
      SameMembers(sorted, rest);
      assert Elements(sorted) + {xs[0]} == Elements(xs);
      InsertOrdered(before, xs[0], sorted);
    }
  }

  lemma {:induction false} NotLater<T>(xs: seq<T>)
    requires Distinct(xs) && xs != []
    ensures xs[0] !in xs[1..] && Distinct(xs[1..])
    ensures forall y | y in xs[1..] :: y in xs
  {
  }

  /** Nothing stands behind what it goes before. */
  ghost predicate WeaklyOrdered<T>(before: (T, T) -> bool, xs: seq<T>) {
    forall i, j | 0 <= i < j < |xs| :: !before(xs[j], xs[i])
  }

  /** Sorting a list that is already in order changes nothing. */
  lemma {:induction false} SortOfOrdered<T(!new)>(before: (T, T) -> bool, xs: seq<T>)
    requires WeaklyOrdered(before, xs)
    ensures Sort(before, xs) == xs
  {
    if xs != [] {
      SortOfOrdered(before, xs[1..]);
      if |xs| > 1 {
        assert !before(xs[1], xs[0]);
      }
    }
  }

  /** What is not before and not after something compares as it does. */
  ghost predicate WeakOrder<T(!new)>(before: (T, T) -> bool) {
    StrictOrder(before) && forall x, y, z :: before(x, z) ==> before(x, y) || before(y, z)
  }

  lemma {:induction false} InsertInOrder<T(!new)>(before: (T, T) -> bool, x: T, xs: seq<T>)
    requires WeakOrder(before) && WeaklyOrdered(before, xs)
    ensures WeaklyOrdered(before, Insert(before, x, xs))
  {
    if xs != [] && before(xs[0], x) {
      var rest := Insert(before, x, xs[1..]);
      InsertInOrder(before, x, xs[1..]);
      forall j | 0 <= j < |rest| ensures !before(rest[j], xs[0]) {
        assert rest[j] in multiset(rest);
        assert rest[j] == x || rest[j] in xs[1..];
      }
    } else if xs != [] {
      forall j | 0 <= j < |xs| ensures !before(xs[j], x) {
        assert j > 0 ==> !before(xs[j], xs[0]);
      }
    }
  }

  /** A sorted list is in order, those that compare alike too. */
  lemma {:induction false} SortInOrder<T(!new)>(before: (T, T) -> bool, xs: seq<T>)
    requires WeakOrder(before)
    ensures WeaklyOrdered(before, Sort(before, xs))
  {
    if xs != [] {
      SortInOrder(before, xs[1..]);
      InsertInOrder(before, xs[0], Sort(before, xs[1..]));
    }
  }

  lemma {:induction false} SomeMember<T>(xs: seq<T>)
    requires xs != []
    ensures exists x :: x in xs
  {
    assert xs[0] in xs;
  }

  /** There is only one way to put a given set of elements in strict order. */
  lemma {:induction false} OrderedUnique<T(!new)>(before: (T, T) -> bool, xs: seq<T>, ys: seq<T>)
    requires StrictOrder(before) && Ordered(before, xs) && Ordered(before, ys)
    requires forall x :: x in xs <==> x in ys
    ensures xs == ys
  {
    if xs == [] {
      if ys != [] {
        SomeMember(ys);
        assert false;
      }
    } else {
      assert xs[0] in xs;
      assert ys[0] in ys;
      var i :| 0 <= i < |ys| && ys[i] == xs[0];
      var j :| 0 <= j < |xs| && xs[j] == ys[0];
      if i > 0 && j > 0 {
        assert false;
      }
      forall x ensures x in xs[1..] <==> x in ys[1..] {
        TailMember(before, xs, x);
        TailMember(before, ys, x);
      }
      OrderedUnique(before, xs[1..], ys[1..]);
      assert xs == [xs[0]] + xs[1..] && ys == [ys[0]] + ys[1..];
    }
  }

  lemma {:induction false} TailMember<T(!new)>(before: (T, T) -> bool, xs: seq<T>, x: T)
    requires StrictOrder(before) && Ordered(before, xs) && xs != []
    ensures x in xs[1..] <==> x in xs && x != xs[0]
  {
    if x in xs[1..] {
      var i :| 0 <= i < |xs[1..]| && xs[1..][i] == x;
      assert before(xs[0], xs[i + 1]);
    }
  }

  lemma {:induction false} OrderedDistinct<T(!new)>(before: (T, T) -> bool, xs: seq<T>)
    requires StrictOrder(before) && Ordered(before, xs)
    ensures Distinct(xs)
  {
    forall i, j | 0 <= i < j < |xs| ensures xs[i] != xs[j] {
      assert before(xs[i], xs[j]) && !before(xs[i], xs[i]);
    }
  }

  /** Two lists without repeats that hold the same elements are permutations of each other. */
  lemma {:induction false} DistinctPermutation<T>(xs: seq<T>, ys: seq<T>)
    requires Distinct(xs) && Distinct(ys)
    requires forall x :: x in xs <==> x in ys
    ensures multiset(xs) == multiset(ys)
  {
    OnceEach(xs);
    OnceEach(ys);
  }

  lemma {:induction false} OnceEach<T>(xs: seq<T>)
    requires Distinct(xs)
    ensures forall x :: multiset(xs)[x] == if x in xs then 1 else 0
  {
    if xs != [] {
      OnceEach(xs[1..]);
      assert xs == [xs[0]] + xs[1..];
    }
  }

  /** An element of a list without repeats is not among the ones in front of it. */
  lemma {:induction false} NotEarlier<T>(xs: seq<T>, n: nat)
    requires Distinct(xs) && n < |xs|
    ensures xs[n] !in xs[..n]
  {
  }
}
