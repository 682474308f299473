/** Kotlin's `MutableList.sort()` on a list whose element type has a total natural order.
    The sort is given as insertion into an ordered list; since two ordered lists with the
    same elements are equal, any correct sort returns the same list. */
module Sorting {

  /** `le` is a total order: reflexive, antisymmetric, transitive and total. */
  ghost predicate TotalOrder<T(!new)>(le: (T, T) -> bool)
  {
    (forall a :: le(a, a)) &&
    (forall a, b :: le(a, b) && le(b, a) ==> a == b) &&
    (forall a, b, c :: le(a, b) && le(b, c) ==> le(a, c)) &&
    (forall a, b :: le(a, b) || le(b, a))
  }

  /** Every element is at most every later one. */
  ghost predicate SortedBy<T>(xs: seq<T>, le: (T, T) -> bool)
  {
    forall i, j :: 0 <= i < j < |xs| ==> le(xs[i], xs[j])
  }

  /** No element occurs twice. */
  predicate Distinct<T(==)>(xs: seq<T>)
  {
    forall i, j :: 0 <= i < j < |xs| ==> xs[i] != xs[j]
  }

  /** `x` placed before the first element it is at most. */
  function Insert<T>(xs: seq<T>, x: T, le: (T, T) -> bool): (r: seq<T>)
    ensures |r| == |xs| + 1
    ensures multiset(r) == multiset(xs) + multiset{x}
  {
    if |xs| == 0 then [x]
    else if le(x, xs[0]) then [x] + xs
    else
      assert xs == [xs[0]] + xs[1..];
      [xs[0]] + Insert(xs[1..], x, le)
  }

  /** The elements of `xs` in order. */
  function Sort<T>(xs: seq<T>, le: (T, T) -> bool): (r: seq<T>)
    ensures multiset(r) == multiset(xs)
  {
    if |xs| == 0 then []
    else
      assert xs == xs[..|xs| - 1] + [xs[|xs| - 1]];
      Insert(Sort(xs[..|xs| - 1], le), xs[|xs| - 1], le)
  }

  lemma {:induction false} InsertSorted<T(!new)>(xs: seq<T>, x: T, le: (T, T) -> bool)
    requires TotalOrder(le) && SortedBy(xs, le)
    ensures SortedBy(Insert(xs, x, le), le)
  {
    if |xs| > 0 && !le(x, xs[0]) {
      InsertSorted(xs[1..], x, le);
      var tail := Insert(xs[1..], x, le);
      assert multiset(tail) == multiset(xs[1..]) + multiset{x};
      forall j | 0 <= j < |tail|
        ensures le(xs[0], tail[j])
      {
        assert tail[j] in multiset(tail);
        if tail[j] != x {
          assert tail[j] in multiset(xs[1..]);
          var k :| 0 <= k < |xs[1..]| && xs[1..][k] == tail[j];
          assert xs[k + 1] == tail[j];
        }
      }
    }
  }

  lemma {:induction false} SortSorted<T(!new)>(xs: seq<T>, le: (T, T) -> bool)
    requires TotalOrder(le)
    ensures SortedBy(Sort(xs, le), le)
  {
    if |xs| > 0 {
      SortSorted(xs[..|xs| - 1], le);
      InsertSorted(Sort(xs[..|xs| - 1], le), xs[|xs| - 1], le);
    }
  }

  /** The first element of an ordered list is its least. */
  lemma HeadIsLeast<T(!new)>(xs: seq<T>, y: T, le: (T, T) -> bool)
    requires TotalOrder(le) && SortedBy(xs, le) && |xs| > 0 && y in multiset(xs)
    ensures le(xs[0], y)
  {
    var k :| 0 <= k < |xs| && xs[k] == y;
  }

  /** Two ordered lists with the same elements start with the same element. */
  lemma SameHead<T(!new)>(a: seq<T>, b: seq<T>, le: (T, T) -> bool)
    requires TotalOrder(le) && SortedBy(a, le) && SortedBy(b, le) && multiset(a) == multiset(b)
    requires |a| > 0
    ensures |b| > 0 && a[0] == b[0]
  {
    assert |b| == |multiset(b)| == |a|;
    assert a[0] in multiset(b) && b[0] in multiset(a);
    HeadIsLeast(b, a[0], le);
    HeadIsLeast(a, b[0], le);
  }

  lemma TailMultiset<T>(a: seq<T>)
    requires |a| > 0
    ensures multiset(a[1..]) == multiset(a) - multiset{a[0]}
  {
    assert a == [a[0]] + a[1..];
  }

  /** Two ordered lists with the same elements are the same list. */
  lemma {:induction false} SortedUnique<T(!new)>(a: seq<T>, b: seq<T>, le: (T, T) -> bool)
    requires TotalOrder(le) && SortedBy(a, le) && SortedBy(b, le) && multiset(a) == multiset(b)
    ensures a == b
  {
    if |a| == 0 {
      assert |b| == |multiset(b)| == 0;
    } else {
      SameHead(a, b, le);
      TailMultiset(a);
      TailMultiset(b);
      SortedUnique(a[1..], b[1..], le);
      assert a == [a[0]] + a[1..] && b == [b[0]] + b[1..];
    }
  }

  /** So `Sort` is the only result a correct sort can have: an ordered permutation of the
      input equals it. */
  lemma SortIsTheSort<T(!new)>(xs: seq<T>, r: seq<T>, le: (T, T) -> bool)
    requires TotalOrder(le) && SortedBy(r, le) && multiset(r) == multiset(xs)
    ensures r == Sort(xs, le)
  {
    SortSorted(xs, le);
    SortedUnique(r, Sort(xs, le), le);
  }

  /** Removing an element from an ordered or repetition-free list keeps it so. */
  lemma RemoveAtKeeps<T(!new)>(xs: seq<T>, k: nat, le: (T, T) -> bool)
    requires k < |xs|
    ensures SortedBy(xs, le) ==> SortedBy(xs[..k] + xs[k + 1..], le)
    ensures Distinct(xs) ==> Distinct(xs[..k] + xs[k + 1..])
  {
    var r := xs[..k] + xs[k + 1..];
    assert forall i :: 0 <= i < |r| ==> r[i] == xs[if i < k then i else i + 1];
  }

  /** A list without repetitions has a multiset of ones: its elements form the set. */
  lemma DistinctMultiset<T>(xs: seq<T>, x: T)
    requires Distinct(xs) && x in xs
    ensures multiset(xs)[x] == 1
  {
    var k :| 0 <= k < |xs| && xs[k] == x;
    assert xs == xs[..k] + [x] + xs[k + 1..];
    assert forall i :: 0 <= i < k ==> xs[..k][i] != x;
    assert forall i :: k + 1 <= i < |xs| ==> xs[i] != x;
    assert multiset(xs) == multiset(xs[..k]) + multiset{x} + multiset(xs[k + 1..]);
  }

  /** An element met at two positions is counted at least twice. */
  lemma CountedTwice<T>(r: seq<T>, i: nat, j: nat)
    requires i < j < |r|
    ensures r[i] == r[j] ==> multiset(r)[r[i]] >= 2
  {
    assert r == r[..j] + [r[j]] + r[j + 1..];
    assert r[..j][i] == r[i];
    assert multiset(r) == multiset(r[..j]) + multiset{r[j]} + multiset(r[j + 1..]);
  }

  /** Adding an absent element to a list without repetitions, in any order, gives a list
      without repetitions. */
  lemma {:induction false} AddFreshKeepsDistinct<T(!new)>(xs: seq<T>, x: T, r: seq<T>)
    requires Distinct(xs) && x !in xs && multiset(r) == multiset(xs) + multiset{x}
    ensures Distinct(r)
  {
    forall i, j | 0 <= i < j < |r|
      ensures r[i] != r[j]
    {
      var y := r[i];
      assert y in multiset(r);
      if y != x {
        assert y in multiset(xs);
        DistinctMultiset(xs, y);
      }
      CountedTwice(r, i, j);
    }
  }

  /** The natural order of integers. */
  predicate IntLe(a: int, b: int)
  {
    a <= b
  }

  lemma IntLeTotalOrder()
    ensures TotalOrder(IntLe)
  {
  }

  /** The position of the first occurrence of `x`. */
  function IndexOf<T(==)>(xs: seq<T>, x: T): (k: nat)
    requires x in xs
    ensures k < |xs| && xs[k] == x && x !in xs[..k]
  {
    if xs[0] == x then 0
    else
      var k := IndexOf(xs[1..], x) + 1;
      assert xs[..k] == [xs[0]] + xs[1..][..k - 1];
      k
  }

  /** `MutableList.remove(x)`: the first occurrence of `x` taken out, the rest kept in
      order; no change when `x` is absent. */
  function RemoveFirst<T(==)>(xs: seq<T>, x: T): (r: seq<T>)
    ensures x !in xs ==> r == xs
    ensures x in xs ==> |r| == |xs| - 1 && r == xs[..IndexOf(xs, x)] + xs[IndexOf(xs, x) + 1..]
    ensures multiset(r) == multiset(xs) - multiset{x}
  {
    if x in xs then
      var k := IndexOf(xs, x);
      assert xs == xs[..k] + [x] + xs[k + 1..];
      xs[..k] + xs[k + 1..]
    else
      assert multiset(xs)[x] == 0;
      xs
  }

  /** Removing keeps a list ordered and without repetitions, and takes a once-present
      element out entirely. */
  lemma RemoveFirstKeeps<T(!new)>(xs: seq<T>, x: T, le: (T, T) -> bool)
    ensures SortedBy(xs, le) ==> SortedBy(RemoveFirst(xs, x), le)
    ensures Distinct(xs) ==> Distinct(RemoveFirst(xs, x)) && x !in RemoveFirst(xs, x)
  {
    if x in xs {
      var k := IndexOf(xs, x);
      RemoveAtKeeps(xs, k, le);
      if Distinct(xs) {
        DistinctMultiset(xs, x);
        assert multiset(RemoveFirst(xs, x))[x] == 0;
      }
    }
  }

  /** Sorting an absent element in and removing it again gives back an ordered list. */
  lemma InsertThenRemove<T(!new)>(xs: seq<T>, x: T, le: (T, T) -> bool)
    requires TotalOrder(le) && SortedBy(xs, le) && x !in xs
    ensures RemoveFirst(Sort(xs + [x], le), x) == xs
  {
    var r := RemoveFirst(Sort(xs + [x], le), x);
    SortSorted(xs + [x], le);
    RemoveFirstKeeps(Sort(xs + [x], le), x, le);
    assert multiset(r) == multiset(xs);
    SortedUnique(r, xs, le);
  }

  /** Removing a present element of an ordered list without repetitions and sorting it
      back in gives back the list. */
  lemma RemoveThenInsert<T(!new)>(xs: seq<T>, x: T, le: (T, T) -> bool)
    requires TotalOrder(le) && SortedBy(xs, le) && Distinct(xs) && x in xs
    ensures Sort(RemoveFirst(xs, x) + [x], le) == xs
  {
    var r := Sort(RemoveFirst(xs, x) + [x], le);
    SortSorted(RemoveFirst(xs, x) + [x], le);
    assert x in multiset(xs);
    assert multiset(r) == multiset(xs);
    SortedUnique(r, xs, le);
  }
}
