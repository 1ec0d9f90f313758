/**
 The standard library's stable sort by a key, which every merge ends with. A stable
 sorting of a list is determined by two facts: keys do not decrease, and the entries
 with any one key are those of the list in their original order.
 */
module StableSort {

  ghost predicate SortedByKey<T(!new)>(items: seq<T>, key: T -> int)
  {
    forall j, k | 0 <= j < k < |items| :: key(items[j]) <= key(items[k])
  }

  /** The entries with the given key, in order. */
  function WithKey<T>(items: seq<T>, key: T -> int, at: int): seq<T>
  {
    if items == [] then []
    else (if key(items[0]) == at then [items[0]] else []) + WithKey(items[1..], key, at)
  }

  ghost predicate IsStableSorting<T(!new)>(sorted: seq<T>, items: seq<T>, key: T -> int)
  {
    && SortedByKey(sorted, key)
    && (forall at :: WithKey(sorted, key, at) == WithKey(items, key, at))
  }

  function Insert<T>(item: T, sorted: seq<T>, key: T -> int): seq<T>
  {
    if sorted == [] || key(item) <= key(sorted[0]) then [item] + sorted
    else [sorted[0]] + Insert(item, sorted[1..], key)
  }

  function Sort<T>(items: seq<T>, key: T -> int): seq<T>
  {
    if items == [] then [] else Insert(items[0], Sort(items[1..], key), key)
  }

  lemma {:induction false} InsertIsSorted<T(!new)>(item: T, sorted: seq<T>, key: T -> int)
    requires SortedByKey(sorted, key)
    ensures SortedByKey(Insert(item, sorted, key), key)
    ensures sorted != [] ==>
              key(Insert(item, sorted, key)[0]) == if key(item) <= key(sorted[0]) then key(item) else key(sorted[0])
  {
    if !(sorted == [] || key(item) <= key(sorted[0])) {
      InsertIsSorted(item, sorted[1..], key);
      var inserted := Insert(item, sorted[1..], key);
      assert key(sorted[0]) <= key(inserted[0]);
      assert forall k | 0 <= k < |inserted| :: key(inserted[0]) <= key(inserted[k]);
    }
  }

  lemma {:induction false} InsertKeepsEntries<T>(item: T, sorted: seq<T>, key: T -> int)
    ensures multiset(Insert(item, sorted, key)) == multiset(sorted) + multiset{item}
  {
    if !(sorted == [] || key(item) <= key(sorted[0])) {
      InsertKeepsEntries(item, sorted[1..], key);
      assert sorted == [sorted[0]] + sorted[1..];
    }
  }

  /** The item only ever passes entries with a smaller key. */
  lemma {:induction false} InsertIsStable<T>(item: T, sorted: seq<T>, key: T -> int, at: int)
    ensures WithKey(Insert(item, sorted, key), key, at) == WithKey([item] + sorted, key, at)
  {
    assert ([item] + sorted)[1..] == sorted;
    if !(sorted == [] || key(item) <= key(sorted[0])) {
      InsertIsStable(item, sorted[1..], key, at);
      assert ([sorted[0]] + Insert(item, sorted[1..], key))[1..] == Insert(item, sorted[1..], key);
      assert ([item] + sorted[1..])[1..] == sorted[1..];
    }
  }

  lemma {:induction false} SortIsStable<T(!new)>(items: seq<T>, key: T -> int)
    ensures IsStableSorting(Sort(items, key), items, key)
    ensures multiset(Sort(items, key)) == multiset(items)
    ensures |Sort(items, key)| == |items|
  {
    if items != [] {
      var rest := items[1..];
      assert items == [items[0]] + rest;
      SortIsStable(rest, key);
      InsertIsSorted(items[0], Sort(rest, key), key);
      InsertKeepsEntries(items[0], Sort(rest, key), key);
      forall at
        ensures WithKey(Sort(items, key), key, at) == WithKey(items, key, at)
      {
        InsertIsStable(items[0], Sort(rest, key), key, at);
        assert ([items[0]] + Sort(rest, key))[1..] == Sort(rest, key);
      }
      assert |Sort(items, key)| == |multiset(Sort(items, key))| == |multiset(items)|;
    }
  }

  lemma {:induction false} WithKeyOfLater<T(!new)>(items: seq<T>, key: T -> int, at: int)
    requires forall k | 0 <= k < |items| :: at < key(items[k])
    ensures WithKey(items, key, at) == []
  {
    if items != [] {
      WithKeyOfLater(items[1..], key, at);
    }
  }

  lemma {:induction false} WithKeyAppend<T>(a: seq<T>, b: seq<T>, key: T -> int, at: int)
    ensures WithKey(a + b, key, at) == WithKey(a, key, at) + WithKey(b, key, at)
  {
    if a == [] {
      assert a + b == b;
    } else {
      WithKeyAppend(a[1..], b, key, at);
      assert (a + b)[1..] == a[1..] + b;
      var first, later, last := if key(a[0]) == at then [a[0]] else [], WithKey(a[1..], key, at), WithKey(b, key, at);
      assert first + (later + last) == (first + later) + last;
    }
  }

  /** There is only one stable sorting, so the two facts say all there is to say. */
  lemma {:induction false} StableSortingIsUnique<T(!new)>(a: seq<T>, b: seq<T>, items: seq<T>, key: T -> int)
    requires IsStableSorting(a, items, key) && IsStableSorting(b, items, key)
    ensures a == b
  {
    SameGroupsSameList(a, b, key);
  }

  lemma {:induction false} SameGroupsSameList<T(!new)>(a: seq<T>, b: seq<T>, key: T -> int)
    requires SortedByKey(a, key) && SortedByKey(b, key)
    requires forall at :: WithKey(a, key, at) == WithKey(b, key, at)
    ensures a == b
  {
    if a == [] && b != [] {
      var group := WithKey(b, key, key(b[0]));
    } else if a != [] && b == [] {
      var group := WithKey(a, key, key(a[0]));
    } else if a != [] {
      var x, y := a[0], b[0];
      if key(x) < key(y) {
        WithKeyOfLater(b, key, key(x));
        assert false;
      }
      if key(y) < key(x) {
        WithKeyOfLater(a, key, key(y));
        assert false;
      }
      assert WithKey(a, key, key(x)) == WithKey(b, key, key(x));
      assert WithKey(a, key, key(x))[0] == x && WithKey(b, key, key(x))[0] == y;
      forall at
        ensures WithKey(a[1..], key, at) == WithKey(b[1..], key, at)
      {
        assert WithKey(a, key, at) == WithKey(b, key, at);
        var first := if key(x) == at then [x] else [];
        assert WithKey(a, key, at) == first + WithKey(a[1..], key, at);
        assert WithKey(b, key, at) == first + WithKey(b[1..], key, at);
        assert WithKey(a[1..], key, at) == WithKey(a, key, at)[|first|..];
        assert WithKey(b[1..], key, at) == WithKey(b, key, at)[|first|..];
      }
      SameGroupsSameList(a[1..], b[1..], key);
    }
  }
}
