/** `Array.prototype.filter`, with the facts the callers rely on. */
module Lists {

  /** The elements of `xs` that `keep` accepts, in their original order. */
  function KeepWhere<T(!new)>(xs: seq<T>, keep: T -> bool): (r: seq<T>)
    ensures |r| <= |xs|
    ensures forall x :: x in r <==> x in xs && keep(x)
  {
    if xs == [] then []
    else (if keep(xs[0]) then [xs[0]] else []) + KeepWhere(xs[1..], keep)
  }

  /** Filtering distributes over concatenation: relative order is kept. */
  lemma {:induction false} KeepWhereAppend<T(!new)>(a: seq<T>, b: seq<T>, keep: T -> bool)
    ensures KeepWhere(a + b, keep) == KeepWhere(a, keep) + KeepWhere(b, keep)
  {
    if a != [] {
      assert (a + b)[1..] == a[1..] + b;
      KeepWhereAppend(a[1..], b, keep);
    } else {
      assert a + b == b;
    }
  }

  /** Every accepted element keeps its multiplicity; every rejected one is gone. */
  lemma {:induction false} KeepWhereCounts<T(!new)>(xs: seq<T>, keep: T -> bool)
    ensures forall x :: multiset(KeepWhere(xs, keep))[x] == if keep(x) then multiset(xs)[x] else 0
  {
    if xs != [] {
      KeepWhereCounts(xs[1..], keep);
      assert xs == [xs[0]] + xs[1..];
    }
  }

  /** A list whose every element is accepted comes back unchanged. */
  lemma {:induction false} KeepWhereAll<T(!new)>(xs: seq<T>, keep: T -> bool)
    requires forall x :: x in xs ==> keep(x)
    ensures KeepWhere(xs, keep) == xs
  {
    if xs != [] {
      KeepWhereAll(xs[1..], keep);
      assert xs == [xs[0]] + xs[1..];
    }
  }
}
