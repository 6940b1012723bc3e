/** Datatypes and the two array searches that the other modules share. */
module Prelude {

  datatype Option<+T> = None | Some(value: T)

  datatype Result<+T, +E> = Ok(value: T) | Err(error: E)

  /** `xs.find(p)`: the first element that satisfies `p`. */
  function FindFirst<T>(xs: seq<T>, p: T -> bool): (r: Option<T>)
    ensures r.None? <==> forall i :: 0 <= i < |xs| ==> !p(xs[i])
    ensures r.Some? ==>
              exists i :: 0 <= i < |xs| && r == Some(xs[i]) && p(xs[i]) && forall j :: 0 <= j < i ==> !p(xs[j])
  {
    if xs == [] then None
    else if p(xs[0]) then
      assert xs[0] == xs[0];
      Some(xs[0])
    else
      var r := FindFirst(xs[1..], p);
      assert r.Some? ==>
          exists i :: 0 <= i < |xs| && r == Some(xs[i]) && p(xs[i]) && forall j :: 0 <= j < i ==> !p(xs[j]) by {
        if r.Some? {
          var i :| 0 <= i < |xs[1..]| && r == Some(xs[1..][i]) && p(xs[1..][i]) &&
                   forall j :: 0 <= j < i ==> !p(xs[1..][j]);
          forall j | 0 <= j < i + 1
            ensures !p(xs[j])
          {
            if j > 0 {
              assert xs[j] == xs[1..][j - 1];
            }
          }
          assert xs[i + 1] == xs[1..][i];
        }
      }
      assert r.None? ==> forall i :: 0 <= i < |xs| ==> !p(xs[i]) by {
        if r.None? {
          forall i | 0 <= i < |xs|
            ensures !p(xs[i])
          {
            if i > 0 {
              assert xs[i] == xs[1..][i - 1];
            }
          }
        }
      }
      r
  }

  /** `xs.filter(p)`: the elements that satisfy `p`, in their order. */
  function Filter<T(!new)>(xs: seq<T>, p: T -> bool): (r: seq<T>)
    ensures forall x :: x in r <==> x in xs && p(x)
    ensures |r| <= |xs|
  {
    if xs == [] then []
    else if p(xs[0]) then [xs[0]] + Filter(xs[1..], p)
    else Filter(xs[1..], p)
  }

  /** The elements of one list, in their order, somewhere in the other. */
  predicate IsPart<T(==)>(part: seq<T>, whole: seq<T>) {
    || part == []
    || (whole != [] && ((part[0] == whole[0] && IsPart(part[1..], whole[1..])) || IsPart(part, whole[1..])))
  }

  lemma {:induction false} FilterIsPart<T(!new)>(xs: seq<T>, p: T -> bool)
    ensures IsPart(Filter(xs, p), xs)
  {
    if xs != [] {
      FilterIsPart(xs[1..], p);
    }
  }

  lemma {:induction false} FilterAgrees<T(!new)>(xs: seq<T>, p: T -> bool, q: T -> bool)
    requires forall x :: x in xs ==> (p(x) <==> q(x))
    ensures Filter(xs, p) == Filter(xs, q)
  {
    if xs != [] {
      FilterAgrees(xs[1..], p, q);
    }
  }

  lemma {:induction false} FilterNone<T(!new)>(xs: seq<T>, p: T -> bool)
    requires forall x :: x in xs ==> !p(x)
    ensures Filter(xs, p) == []
  {
    if xs != [] {
      assert xs[0] in xs;
      FilterNone(xs[1..], p);
    }
  }

  /** What satisfies the test is there as often as it was, and nothing else is. */
  lemma {:induction false} FilterCounts<T(!new)>(xs: seq<T>, p: T -> bool, x: T)
    ensures multiset(Filter(xs, p))[x] == if p(x) then multiset(xs)[x] else 0
  {
    if xs != [] {
      FilterCounts(xs[1..], p, x);
      assert xs == [xs[0]] + xs[1..];
    }
  }

  /** Filtering for `p` and then finding `q` is finding both at once. */
  lemma {:induction false} FindInFilter<T(!new)>(xs: seq<T>, p: T -> bool, q: T -> bool, both: T -> bool)
    requires forall x :: x in xs ==> (both(x) <==> p(x) && q(x))
    ensures FindFirst(Filter(xs, p), q) == FindFirst(xs, both)
  {
    if xs != [] {
      FindInFilter(xs[1..], p, q, both);
      if p(xs[0]) {
        assert Filter(xs, p)[0] == xs[0];
        assert Filter(xs, p)[1..] == Filter(xs[1..], p);
      }
    }
  }

  /** Finding looks only at what the test says of the elements. */
  lemma {:induction false} FindAgrees<T>(xs: seq<T>, p: T -> bool, q: T -> bool)
    requires forall i :: 0 <= i < |xs| ==> (p(xs[i]) <==> q(xs[i]))
    ensures FindFirst(xs, p) == FindFirst(xs, q)
  {
    if xs != [] && !p(xs[0]) {
      assert forall i :: 0 <= i < |xs[1..]| ==> xs[1..][i] == xs[i + 1];
      FindAgrees(xs[1..], p, q);
    }
  }

  /** Lists that are permutations of one another have the same members. */
  lemma SameMembers<T>(xs: seq<T>, ys: seq<T>, x: T)
    requires multiset(xs) == multiset(ys)
    ensures x in xs <==> x in ys
  {
    assert x in multiset(xs) <==> x in multiset(ys);
  }
}
