/** A value that may be missing. */
module Options {
  datatype Option<+T> = None | Some(value: T)

  function Or<T>(first: Option<T>, second: Option<T>): Option<T> { if first.Some? then first else second }

  /** What the last of `named` that names anything names; and what there was, if none does. */
  ghost predicate LastNamed<T(!new)>(now: Option<T>, was: Option<T>, named: seq<Option<T>>) {
    if forall i | 0 <= i < |named| :: named[i].None? then now == was
    else exists i :: 0 <= i < |named| && named[i].Some? && now == named[i]
                     && forall k | i < k < |named| :: named[k].None?
  }

  lemma {:induction false} NamedMore<T(!new)>(now: Option<T>, was: Option<T>, named: seq<Option<T>>, next: Option<T>)
    requires LastNamed(now, was, named)
    ensures LastNamed(Or(next, now), was, named + [next])
  {
    var all := named + [next];
    if next.Some? {
      assert all[|named|].Some?;
    } else if forall i | 0 <= i < |named| :: named[i].None? {
      assert forall i | 0 <= i < |all| :: all[i].None?;
    } else {
      var i :| 0 <= i < |named| && named[i].Some? && now == named[i] && forall k | i < k < |named| :: named[k].None?;
      assert all[i].Some? && forall k | i < k < |all| :: all[k].None?;
    }
  }

  lemma {:induction false} OneNamed<T(!new)>(one: Option<T>, other: Option<T>, was: Option<T>, named: seq<Option<T>>)
    requires LastNamed(one, was, named) && LastNamed(other, was, named)
    ensures one == other
  {
  }
}
