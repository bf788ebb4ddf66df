/** Sorting by an order on keys, one element inserted after another. */
module Sorting {

  ghost predicate IsOrder<T(!new)>(le: (T, T) -> bool) {
    && (forall a, b :: le(a, b) || le(b, a))
    && (forall a, b, c :: le(a, b) && le(b, c) ==> le(a, c))
  }

  predicate SortedBy<T>(le: (T, T) -> bool, xs: seq<T>) {
    forall i, j | 0 <= i < j < |xs| :: le(xs[i], xs[j])
  }

  function Insert<T>(le: (T, T) -> bool, x: T, xs: seq<T>): seq<T> {
    if xs == [] || le(x, xs[0]) then [x] + xs else [xs[0]] + Insert(le, x, xs[1..])
  }

  function Sort<T>(le: (T, T) -> bool, xs: seq<T>): seq<T> {
    if xs == [] then [] else Insert(le, xs[0], Sort(le, xs[1..]))
  }

  lemma {:induction false} InsertKeepsBound<T>(le: (T, T) -> bool, bound: T, x: T, xs: seq<T>)
    requires le(bound, x) && forall i | 0 <= i < |xs| :: le(bound, xs[i])
    ensures forall i | 0 <= i < |Insert(le, x, xs)| :: le(bound, Insert(le, x, xs)[i])
  {
    if xs == [] || le(x, xs[0]) {
    } else {
      InsertKeepsBound(le, bound, x, xs[1..]);
    }
  }

  lemma {:induction false} InsertKeeps<T(!new)>(le: (T, T) -> bool, x: T, xs: seq<T>)
    requires IsOrder(le) && SortedBy(le, xs)
    ensures SortedBy(le, Insert(le, x, xs))
    ensures multiset(Insert(le, x, xs)) == multiset(xs) + multiset{x}
  {
    if xs == [] || le(x, xs[0]) {
    } else {
      InsertKeeps(le, x, xs[1..]);
      InsertKeepsBound(le, xs[0], x, xs[1..]);
      assert xs == [xs[0]] + xs[1..];
    }
  }

  /** The result is sorted and holds the same elements, each as often. */
  lemma {:induction false} SortSorts<T(!new)>(le: (T, T) -> bool, xs: seq<T>)
    requires IsOrder(le)
    ensures SortedBy(le, Sort(le, xs))
    ensures multiset(Sort(le, xs)) == multiset(xs) && |Sort(le, xs)| == |xs|
    ensures forall x :: x in Sort(le, xs) <==> x in xs
  {
    if xs == [] {
    } else {
      SortSorts(le, xs[1..]);
      InsertKeeps(le, xs[0], Sort(le, xs[1..]));
      assert xs == [xs[0]] + xs[1..];
    }
    assert |multiset(Sort(le, xs))| == |multiset(xs)|;
    forall x ensures x in Sort(le, xs) <==> x in xs {
      assert x in multiset(Sort(le, xs)) <==> x in multiset(xs);
    }
  }

  predicate NoRepeats<T(==)>(xs: seq<T>) {
    forall i, j | 0 <= i < j < |xs| :: xs[i] != xs[j]
  }

  /** Sorting a listing without repeats gives one without repeats. */
  lemma SortKeepsApart<T(!new)>(le: (T, T) -> bool, xs: seq<T>)
    requires IsOrder(le) && NoRepeats(xs)
    ensures NoRepeats(Sort(le, xs))
  {
    SortSorts(le, xs);
    CountsOfNoRepeats(xs);
    var ys := Sort(le, xs);
    forall i, j | 0 <= i < j < |ys| ensures ys[i] != ys[j] {
      OneOrTwo(ys, i, j);
    }
  }

  lemma OneOrTwo<T>(ys: seq<T>, i: nat, j: nat)
    requires i < j < |ys|
    ensures ys[i] == ys[j] ==> multiset(ys)[ys[i]] >= 2
  {
    assert ys == ys[..j] + ys[j..];
    assert ys[..j][i] == ys[i] && ys[j..][0] == ys[j];
  }

  lemma {:induction false} CountsOfNoRepeats<T(!new)>(xs: seq<T>)
    requires NoRepeats(xs)
    ensures forall x :: multiset(xs)[x] <= 1
  {
    if xs == [] {
    } else {
      var rest := xs[1..];
      CountsOfNoRepeats(rest);
      assert xs == [xs[0]] + rest;
      assert xs[0] !in rest;
    }
  }
}
