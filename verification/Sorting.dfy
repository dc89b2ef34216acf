/** Sorting by a numeric key, as std::sort and std::stable_sort are used. */
module Sorting {

  ghost predicate InOrder<T(!new)>(key: T -> nat, xs: seq<T>)
  {
    forall i, j | 0 <= i < j < |xs| :: key(xs[i]) <= key(xs[j])
  }

  /** Places x before the first element that does not precede it. */
  function Insert<T>(key: T -> nat, x: T, xs: seq<T>): (r: seq<T>)
    ensures |r| == |xs| + 1
  {
    if xs == [] || key(x) <= key(xs[0]) then [x] + xs else [xs[0]] + Insert(key, x, xs[1..])
  }

  function Sort<T>(key: T -> nat, xs: seq<T>): (r: seq<T>)
    ensures |r| == |xs|
  {
    if xs == [] then [] else Insert(key, xs[0], Sort(key, xs[1..]))
  }

  lemma {:induction false} InsertKeepsElements<T>(key: T -> nat, x: T, xs: seq<T>)
    ensures multiset(Insert(key, x, xs)) == multiset{x} + multiset(xs)
  {
    if xs != [] {
      InsertKeepsElements(key, x, xs[1..]);
      assert xs == [xs[0]] + xs[1..];
    }
  }

  lemma {:induction false} SortKeepsElements<T>(key: T -> nat, xs: seq<T>)
    ensures multiset(Sort(key, xs)) == multiset(xs)
  {
    if xs != [] {
      SortKeepsElements(key, xs[1..]);
      InsertKeepsElements(key, xs[0], Sort(key, xs[1..]));
      assert xs == [xs[0]] + xs[1..];
    }
  }

  lemma {:induction false} InsertKeepsOrder<T(!new)>(key: T -> nat, x: T, xs: seq<T>)
    requires InOrder(key, xs)
    ensures InOrder(key, Insert(key, x, xs))
  {
    if xs != [] && key(x) > key(xs[0]) {
      InsertKeepsOrder(key, x, xs[1..]);
      var tail := Insert(key, x, xs[1..]);
      InsertKeepsElements(key, x, xs[1..]);
      forall y | y in tail ensures key(xs[0]) <= key(y) {
        assert y in multiset(tail);
        assert y == x || y in xs[1..];
      }
    }
  }

  /** The result is in order and has the same elements, each as often. */
  lemma {:induction false} SortSorts<T(!new)>(key: T -> nat, xs: seq<T>)
    ensures InOrder(key, Sort(key, xs)) && multiset(Sort(key, xs)) == multiset(xs)
  {
    SortKeepsElements(key, xs);
    if xs != [] {
      SortSorts(key, xs[1..]);
      InsertKeepsOrder(key, xs[0], Sort(key, xs[1..]));
    }
  }

  /** The elements with one key, in their order. */
  ghost function WithKey<T(!new)>(key: T -> nat, k: nat, xs: seq<T>): seq<T>
  {
    if xs == [] then []
    else (if key(xs[0]) == k then [xs[0]] else []) + WithKey(key, k, xs[1..])
  }

  lemma {:induction false} InsertIsStable<T(!new)>(key: T -> nat, k: nat, x: T, xs: seq<T>)
    ensures WithKey(key, k, Insert(key, x, xs)) == WithKey(key, k, [x] + xs)
  {
    assert ([x] + xs)[1..] == xs;
    if xs != [] && key(x) > key(xs[0]) {
      InsertIsStable(key, k, x, xs[1..]);
      var tail := Insert(key, x, xs[1..]);
      assert ([xs[0]] + tail)[1..] == tail && ([x] + xs[1..])[1..] == xs[1..];
    }
  }

  /** Elements with equal keys keep their order. */
  lemma {:induction false} SortIsStable<T(!new)>(key: T -> nat, k: nat, xs: seq<T>)
    ensures WithKey(key, k, Sort(key, xs)) == WithKey(key, k, xs)
  {
    if xs != [] {
      SortIsStable(key, k, xs[1..]);
      var rest := Sort(key, xs[1..]);
      InsertIsStable(key, k, xs[0], rest);
      assert ([xs[0]] + rest)[1..] == rest;
    }
  }

  /** Elements that are in order already stay as they are, equal keys included. */
  lemma {:induction false} SortOfOrdered<T(!new)>(key: T -> nat, xs: seq<T>)
    requires InOrder(key, xs)
    ensures Sort(key, xs) == xs
  {
    if xs != [] {
      SortOfOrdered(key, xs[1..]);
    }
  }
}
