/** `sort.SliceStable`, as a stable insertion sort by an integer key. */
module Sorting {

  /** Inserts `x` after every element whose key is at most its own. */
  function Insert<T>(sorted: seq<T>, x: T, key: T -> int): (r: seq<T>)
    ensures |r| == |sorted| + 1
  {
    if sorted == [] then [x]
    else if key(sorted[0]) <= key(x) then [sorted[0]] + Insert(sorted[1..], x, key)
    else [x] + sorted
  }

  function StableSort<T>(xs: seq<T>, key: T -> int): (r: seq<T>)
    ensures |r| == |xs|
  {
    if xs == [] then []
    else Insert(StableSort(xs[..|xs| - 1], key), xs[|xs| - 1], key)
  }

  ghost predicate Sorted<T>(xs: seq<T>, key: T -> int) {
    forall i, j :: 0 <= i < j < |xs| ==> key(xs[i]) <= key(xs[j])
  }

  ghost predicate KeysFrom<T>(xs: seq<T>, key: T -> int, low: int) {
    forall i :: 0 <= i < |xs| ==> low <= key(xs[i])
  }

  lemma {:induction false} InsertAbove<T>(sorted: seq<T>, x: T, key: T -> int, low: int)
    requires KeysFrom(sorted, key, low) && low <= key(x)
    ensures KeysFrom(Insert(sorted, x, key), key, low)
  {
    if sorted != [] {
      InsertAbove(sorted[1..], x, key, low);
    }
  }

  lemma {:induction false} InsertSorts<T>(sorted: seq<T>, x: T, key: T -> int)
    requires Sorted(sorted, key)
    ensures Sorted(Insert(sorted, x, key), key)
  {
    if sorted != [] && key(sorted[0]) <= key(x) {
      InsertSorts(sorted[1..], x, key);
      InsertAbove(sorted[1..], x, key, key(sorted[0]));
    }
  }

  /** `x` comes before `y`: by key, and by rank where the keys are equal. */
  ghost predicate Before<T>(x: T, y: T, key: T -> int, rank: T -> int) {
    key(x) < key(y) || (key(x) == key(y) && rank(x) < rank(y))
  }

  ghost predicate Ordered<T>(xs: seq<T>, key: T -> int, rank: T -> int) {
    forall i, j :: 0 <= i < j < |xs| ==> Before(xs[i], xs[j], key, rank)
  }

  ghost predicate RanksBelow<T>(xs: seq<T>, rank: T -> int, bound: int) {
    forall i :: 0 <= i < |xs| ==> rank(xs[i]) < bound
  }

  ghost predicate Ascending<T>(xs: seq<T>, rank: T -> int) {
    forall i, j :: 0 <= i < j < |xs| ==> rank(xs[i]) < rank(xs[j])
  }

  lemma {:induction false} InsertElements<T>(sorted: seq<T>, x: T, key: T -> int)
    ensures multiset(Insert(sorted, x, key)) == multiset(sorted) + multiset{x}
  {
    if sorted != [] {
      InsertElements(sorted[1..], x, key);
      assert sorted == [sorted[0]] + sorted[1..];
    }
  }

  lemma {:induction false} StableSortSorts<T>(xs: seq<T>, key: T -> int)
    ensures Sorted(StableSort(xs, key), key)
    ensures multiset(StableSort(xs, key)) == multiset(xs)
  {
    if xs != [] {
      var n := |xs| - 1;
      StableSortSorts(xs[..n], key);
      InsertSorts(StableSort(xs[..n], key), xs[n], key);
      InsertElements(StableSort(xs[..n], key), xs[n], key);
      assert xs == xs[..n] + [xs[n]];
    }
  }

  lemma SameElements<T>(xs: seq<T>, ys: seq<T>)
    requires multiset(xs) == multiset(ys)
    ensures forall x :: x in xs <==> x in ys
  {
    forall x
      ensures x in xs <==> x in ys
    {
      SameElement(xs, ys, x);
    }
  }

  lemma SameElement<T>(xs: seq<T>, ys: seq<T>, x: T)
    requires multiset(xs) == multiset(ys)
    ensures x in xs <==> x in ys
  {
    assert x in xs <==> x in multiset(xs);
    assert x in ys <==> x in multiset(ys);
  }

  lemma BelowAll<T>(xs: seq<T>, ys: seq<T>, rank: T -> int, bound: int)
    requires multiset(xs) == multiset(ys) && RanksBelow(ys, rank, bound)
    ensures RanksBelow(xs, rank, bound)
  {
    forall i | 0 <= i < |xs|
      ensures rank(xs[i]) < bound
    {
      SameElement(xs, ys, xs[i]);
      var k :| 0 <= k < |ys| && ys[k] == xs[i];
    }
  }

  /** `x` comes before all of `xs`. */
  ghost predicate BeforeAll<T>(x: T, xs: seq<T>, key: T -> int, rank: T -> int) {
    forall i :: 0 <= i < |xs| ==> Before(x, xs[i], key, rank)
  }

  lemma BeforeSame<T>(x: T, xs: seq<T>, ys: seq<T>, key: T -> int, rank: T -> int)
    requires multiset(xs) == multiset(ys) && BeforeAll(x, ys, key, rank)
    ensures BeforeAll(x, xs, key, rank)
  {
    hide Before;
    forall i | 0 <= i < |xs|
      ensures Before(x, xs[i], key, rank)
    {
      SameElement(xs, ys, xs[i]);
      var k :| 0 <= k < |ys| && ys[k] == xs[i];
    }
  }

  lemma {:induction false} InsertOrdered<T>(sorted: seq<T>, x: T, key: T -> int, rank: T -> int)
    requires Ordered(sorted, key, rank) && RanksBelow(sorted, rank, rank(x))
    ensures Ordered(Insert(sorted, x, key), key, rank)
  {
    if sorted != [] && key(sorted[0]) <= key(x) {
      var rest := sorted[1..];
      InsertOrdered(rest, x, key, rank);
      InsertElements(rest, x, key);
      assert BeforeAll(sorted[0], rest, key, rank) by {
        forall i | 0 <= i < |rest|
          ensures Before(sorted[0], rest[i], key, rank)
        {
          assert Before(sorted[0], sorted[i + 1], key, rank);
        }
      }
      BeforeSame(sorted[0], Insert(rest, x, key), rest + [x], key, rank);
    }
  }

  /** The sort orders by key and leaves elements of equal keys in their original order. */
  lemma {:induction false} StableSortOrders<T>(xs: seq<T>, key: T -> int, rank: T -> int)
    requires Ascending(xs, rank)
    ensures multiset(StableSort(xs, key)) == multiset(xs)
    ensures Ordered(StableSort(xs, key), key, rank)
  {
    if xs != [] {
      var n := |xs| - 1;
      StableSortOrders(xs[..n], key, rank);
      var sorted := StableSort(xs[..n], key);
      BelowAll(sorted, xs[..n], rank, rank(xs[n]));
      InsertOrdered(sorted, xs[n], key, rank);
      InsertElements(sorted, xs[n], key);
      assert xs == xs[..n] + [xs[n]];
    }
  }
}
