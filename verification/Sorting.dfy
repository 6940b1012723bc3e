/** Stable sorting by a number, greatest first: `xs.sort((a, b) => key(b) - key(a))`. */
module Sorting {

  function Insert<T>(key: T -> nat, x: T, sorted: seq<T>): (r: seq<T>)
    ensures |r| == |sorted| + 1
  {
    if sorted == [] || key(sorted[0]) < key(x) then [x] + sorted
    else [sorted[0]] + Insert(key, x, sorted[1..])
  }

  /** Equal elements keep their order. */
  function Sort<T>(key: T -> nat, xs: seq<T>): (r: seq<T>)
    ensures |r| == |xs|
  {
    if xs == [] then [] else Insert(key, xs[|xs| - 1], Sort(key, xs[..|xs| - 1]))
  }

  ghost predicate Descending<T>(key: T -> nat, xs: seq<T>) {
    forall i, j :: 0 <= i < j < |xs| ==> key(xs[i]) >= key(xs[j])
  }

  lemma {:induction false} InsertKeepsAll<T>(key: T -> nat, x: T, sorted: seq<T>)
    ensures multiset(Insert(key, x, sorted)) == multiset(sorted) + multiset{x}
  {
    if sorted != [] && key(sorted[0]) >= key(x) {
      InsertKeepsAll(key, x, sorted[1..]);
      assert sorted == [sorted[0]] + sorted[1..];
    }
  }

  lemma {:induction false} InsertSorts<T>(key: T -> nat, x: T, sorted: seq<T>)
    requires Descending(key, sorted)
    ensures Descending(key, Insert(key, x, sorted))
  {
    if sorted != [] && key(sorted[0]) >= key(x) {
      var first, rest := sorted[0], Insert(key, x, sorted[1..]);
      InsertSorts(key, x, sorted[1..]);
      InsertKeepsAll(key, x, sorted[1..]);
      forall j | 0 <= j < |rest|
        ensures key(first) >= key(rest[j])
      {
        assert rest[j] in multiset(rest);
        FromTheRest(sorted[1..], x, rest[j]);
      }
      DescendingFrom(key, first, rest);
    }
  }

  lemma DescendingFrom<T>(key: T -> nat, first: T, rest: seq<T>)
    requires Descending(key, rest) && forall j :: 0 <= j < |rest| ==> key(first) >= key(rest[j])
    ensures Descending(key, [first] + rest)
  {
  }

  lemma FromTheRest<T>(xs: seq<T>, x: T, y: T)
    requires y in multiset(xs) + multiset{x}
    ensures y in xs || y == x
  {
  }

  lemma OneMoreAtTheEnd<T>(front: seq<T>, last: T, xs: seq<T>)
    requires xs != [] && front == xs[..|xs| - 1] && last == xs[|xs| - 1]
    ensures multiset(xs) == multiset(front) + multiset{last}
  {
    assert xs == front + [last];
  }

  lemma {:induction false} SortKeepsAll<T>(key: T -> nat, xs: seq<T>)
    ensures multiset(Sort(key, xs)) == multiset(xs)
    decreases |xs|
  {
    if xs != [] {
      var front, last := xs[..|xs| - 1], xs[|xs| - 1];
      SortKeepsAll(key, front);
      InsertKeepsAll(key, last, Sort(key, front));
      OneMoreAtTheEnd(front, last, xs);
    }
  }

  lemma {:induction false} SortDescends<T>(key: T -> nat, xs: seq<T>)
    ensures Descending(key, Sort(key, xs))
    decreases |xs|
  {
    if xs != [] {
      SortDescends(key, xs[..|xs| - 1]);
      InsertSorts(key, xs[|xs| - 1], Sort(key, xs[..|xs| - 1]));
    }
  }

  lemma SortSorts<T>(key: T -> nat, xs: seq<T>)
    ensures Descending(key, Sort(key, xs)) && multiset(Sort(key, xs)) == multiset(xs)
  {
    SortDescends(key, xs);
    SortKeepsAll(key, xs);
  }

  // ---- stability ----

  /** The elements whose number is exactly n, in their order. */
  function WithKey<T>(key: T -> nat, xs: seq<T>, n: nat): seq<T> {
    if xs == [] then []
    else (if key(xs[0]) == n then [xs[0]] else []) + WithKey(key, xs[1..], n)
  }

  lemma WithKeyFirst<T>(key: T -> nat, x: T, xs: seq<T>, n: nat)
    ensures WithKey(key, [x] + xs, n) == WithKey(key, [x], n) + WithKey(key, xs, n)
  {
    assert ([x] + xs)[1..] == xs;
  }

  lemma {:induction false} NoneOfAHigherKey<T>(key: T -> nat, xs: seq<T>, n: nat)
    requires forall i :: 0 <= i < |xs| ==> key(xs[i]) < n
    ensures WithKey(key, xs, n) == []
  {
    if xs != [] {
      NoneOfAHigherKey(key, xs[1..], n);
    }
  }

  lemma InsertInFront<T>(key: T -> nat, x: T, sorted: seq<T>, n: nat)
    requires Descending(key, sorted) && (sorted == [] || key(sorted[0]) < key(x))
    ensures WithKey(key, [x] + sorted, n) == WithKey(key, sorted, n) + WithKey(key, [x], n)
  {
    WithKeyFirst(key, x, sorted, n);
    if key(x) == n {
      NoneOfAHigherKey(key, sorted, n);
    } else {
      assert WithKey(key, [x], n) == [];
    }
  }

  lemma InsertBehind<T>(key: T -> nat, first: T, rest: seq<T>, rest': seq<T>, xs: seq<T>, n: nat)
    requires WithKey(key, rest', n) == WithKey(key, rest, n) + xs
    ensures WithKey(key, [first] + rest', n) == WithKey(key, [first] + rest, n) + xs
  {
    WithKeyFirst(key, first, rest, n);
    WithKeyFirst(key, first, rest', n);
    var f, r := WithKey(key, [first], n), WithKey(key, rest, n);
    assert f + (r + xs) == (f + r) + xs;
  }

  lemma {:induction false} WithKeySplits<T>(key: T -> nat, a: seq<T>, b: seq<T>, n: nat)
    ensures WithKey(key, a + b, n) == WithKey(key, a, n) + WithKey(key, b, n)
  {
    if a == [] {
      assert a + b == b;
    } else {
      WithKeySplits(key, a[1..], b, n);
      InsertBehind(key, a[0], a[1..], a[1..] + b, WithKey(key, b, n), n);
      assert a == [a[0]] + a[1..] && a + b == [a[0]] + (a[1..] + b);
    }
  }

  lemma {:induction false} InsertIsStable<T>(key: T -> nat, x: T, sorted: seq<T>, n: nat)
    requires Descending(key, sorted)
    ensures WithKey(key, Insert(key, x, sorted), n) == WithKey(key, sorted, n) + WithKey(key, [x], n)
  {
    if sorted == [] || key(sorted[0]) < key(x) {
      InsertInFront(key, x, sorted, n);
    } else {
      var first, rest := sorted[0], sorted[1..];
      InsertIsStable(key, x, rest, n);
      InsertBehind(key, first, rest, Insert(key, x, rest), WithKey(key, [x], n), n);
      assert sorted == [first] + rest;
    }
  }

  /** Elements with equal numbers stay in the order they were in. */
  lemma {:induction false} SortIsStable<T>(key: T -> nat, xs: seq<T>, n: nat)
    ensures WithKey(key, Sort(key, xs), n) == WithKey(key, xs, n)
    decreases |xs|
  {
    if xs != [] {
      var front, last := xs[..|xs| - 1], xs[|xs| - 1];
      SortIsStable(key, front, n);
      SortDescends(key, front);
      InsertIsStable(key, last, Sort(key, front), n);
      WithKeySplits(key, front, [last], n);
      assert xs == front + [last];
    }
  }
}
