/** Stable sorting by an integer key, as `sorted` and `list.sort` do it. */
module Sorting {

  function Insert<T>(x: T, sorted: seq<T>, key: T -> int): seq<T> {
    if sorted == [] then [x]
    else if key(sorted[|sorted| - 1]) <= key(x) then sorted + [x]
    else Insert(x, sorted[..|sorted| - 1], key) + [sorted[|sorted| - 1]]
  }

  function SortBy<T>(items: seq<T>, key: T -> int): seq<T> {
    if items == [] then []
    else Insert(items[|items| - 1], SortBy(items[..|items| - 1], key), key)
  }

  ghost predicate OrderedBy<T>(items: seq<T>, key: T -> int) {
    forall i, j :: 0 <= i < j < |items| ==> key(items[i]) <= key(items[j])
  }

  /** The items with one key, in order. */
  function WithKey<T>(items: seq<T>, key: T -> int, k: int): seq<T> {
    if items == [] then []
    else WithKey(items[..|items| - 1], key, k) + if key(items[|items| - 1]) == k then [items[|items| - 1]] else []
  }

  lemma WithKeyAppend<T>(items: seq<T>, x: T, key: T -> int, k: int)
    ensures WithKey(items + [x], key, k) == WithKey(items, key, k) + if key(x) == k then [x] else []
  {
    assert (items + [x])[..|items|] == items;
  }

  lemma {:induction false} InsertOrders<T>(x: T, sorted: seq<T>, key: T -> int)
    requires OrderedBy(sorted, key)
    ensures var r := Insert(x, sorted, key);
      OrderedBy(r, key) && multiset(r) == multiset(sorted) + multiset{x}
  {
    if sorted != [] {
      var n := |sorted| - 1;
      assert sorted == sorted[..n] + [sorted[n]];
      if key(sorted[n]) > key(x) {
        InsertOrders(x, sorted[..n], key);
        AppendOrdered(Insert(x, sorted[..n], key), sorted[..n], x, sorted[n], key);
      }
    }
  }

  lemma AppendOrdered<T>(r: seq<T>, before: seq<T>, x: T, last: T, key: T -> int)
    requires OrderedBy(r, key) && multiset(r) == multiset(before) + multiset{x}
    requires OrderedBy(before + [last], key) && key(x) <= key(last)
    ensures OrderedBy(r + [last], key)
  {
    forall i | 0 <= i < |r| ensures key(r[i]) <= key(last) {
      assert r[i] in multiset(r);
      if r[i] != x {
        var j :| 0 <= j < |before| && before[j] == r[i];
        assert (before + [last])[j] == before[j] && (before + [last])[|before|] == last;
      }
    }
  }

  /** Inserting goes behind everything with the same key. */
  lemma {:induction false} InsertIsStable<T>(x: T, sorted: seq<T>, key: T -> int, k: int)
    requires OrderedBy(sorted, key)
    ensures WithKey(Insert(x, sorted, key), key, k) == WithKey(sorted, key, k) + if key(x) == k then [x] else []
  {
    if sorted == [] {
      WithKeyAppend([], x, key, k);
      assert [] + [x] == [x];
    } else {
      var n := |sorted| - 1;
      assert sorted == sorted[..n] + [sorted[n]];
      WithKeyAppend(sorted, x, key, k);
      if key(sorted[n]) > key(x) {
        InsertIsStable(x, sorted[..n], key, k);
        WithKeyAppend(Insert(x, sorted[..n], key), sorted[n], key, k);
      }
    }
  }

  /** Sorting orders the items, keeps each of them, and leaves items with equal keys in their order. */
  lemma {:induction false} SortMeans<T>(items: seq<T>, key: T -> int)
    ensures var r := SortBy(items, key);
      && OrderedBy(r, key) && multiset(r) == multiset(items)
      && forall k :: WithKey(r, key, k) == WithKey(items, key, k)
  {
    if items != [] {
      var n := |items| - 1;
      assert items == items[..n] + [items[n]];
      SortMeans(items[..n], key);
      InsertOrders(items[n], SortBy(items[..n], key), key);
      forall k ensures WithKey(SortBy(items, key), key, k) == WithKey(items, key, k) {
        InsertIsStable(items[n], SortBy(items[..n], key), key, k);
      }
    }
  }
}
