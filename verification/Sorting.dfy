/** Sorting by descending key, as the standard libraries of Python and Go do it. */
module Sorting {

  predicate Descending<T>(s: seq<T>, key: T -> int) {
    forall i, j :: 0 <= i < j < |s| ==> key(s[i]) >= key(s[j])
  }

  function Insert<T>(s: seq<T>, x: T, key: T -> int): seq<T> {
    if s == [] || key(s[|s| - 1]) >= key(x) then s + [x]
    else Insert(s[..|s| - 1], x, key) + [s[|s| - 1]]
  }

  /** Python's `sorted` with the negated key: equal keys keep their order. */
  function StableSort<T>(s: seq<T>, key: T -> int): seq<T> {
    if s == [] then [] else Insert(StableSort(s[..|s| - 1], key), s[|s| - 1], key)
  }

  /** The elements with key `v`, in order. */
  function OfKey<T>(s: seq<T>, key: T -> int, v: int): seq<T> {
    if s == [] then []
    else
      var init, x := OfKey(s[..|s| - 1], key, v), s[|s| - 1];
      if key(x) == v then init + [x] else init
  }

  lemma {:induction false} InsertPermutes<T>(s: seq<T>, x: T, key: T -> int)
    ensures multiset(Insert(s, x, key)) == multiset(s) + multiset{x}
  {
    if s != [] && key(s[|s| - 1]) < key(x) {
      InsertPermutes(s[..|s| - 1], x, key);
      assert s == s[..|s| - 1] + [s[|s| - 1]];
    }
  }

  ghost predicate AtLeast<T>(s: seq<T>, key: T -> int, v: int) {
    forall i :: 0 <= i < |s| ==> key(s[i]) >= v
  }

  lemma DescendingMore<T>(s: seq<T>, x: T, key: T -> int)
    ensures Descending(s + [x], key) <==> Descending(s, key) && AtLeast(s, key, key(x))
  {
    var t := s + [x];
    assert forall i :: 0 <= i < |s| ==> t[i] == s[i];
    assert t[|s|] == x;
  }

  lemma AtLeastMore<T>(s: seq<T>, x: T, key: T -> int, v: int)
    ensures AtLeast(s + [x], key, v) <==> AtLeast(s, key, v) && key(x) >= v
  {
    var t := s + [x];
    assert forall i :: 0 <= i < |s| ==> t[i] == s[i];
    assert t[|s|] == x;
  }

  lemma {:induction false} InsertSorted<T>(s: seq<T>, x: T, key: T -> int, v: int)
    requires Descending(s, key)
    ensures Descending(Insert(s, x, key), key)
    ensures AtLeast(s, key, v) && key(x) >= v ==> AtLeast(Insert(s, x, key), key, v)
  {
    if s == [] || key(s[|s| - 1]) >= key(x) {
      DescendingMore(s, x, key);
      AtLeastMore(s, x, key, v);
    } else {
      var init, last := s[..|s| - 1], s[|s| - 1];
      assert s == init + [last];
      DescendingMore(init, last, key);
      AtLeastMore(init, last, key, v);
      InsertSorted(init, x, key, v);
      InsertSorted(init, x, key, key(last));
      DescendingMore(Insert(init, x, key), last, key);
      AtLeastMore(Insert(init, x, key), last, key, v);
    }
  }

  lemma OfKeyMore<T>(s: seq<T>, x: T, key: T -> int, v: int)
    ensures OfKey(s + [x], key, v) == if key(x) == v then OfKey(s, key, v) + [x] else OfKey(s, key, v)
  {
  }

  lemma {:induction false} InsertStable<T>(s: seq<T>, x: T, key: T -> int, v: int)
    requires Descending(s, key)
    ensures OfKey(Insert(s, x, key), key, v) == if key(x) == v then OfKey(s, key, v) + [x] else OfKey(s, key, v)
  {
    hide OfKey;
    if s == [] || key(s[|s| - 1]) >= key(x) {
      OfKeyMore(s, x, key, v);
    } else {
      var init, last := s[..|s| - 1], s[|s| - 1];
      InsertStable(init, x, key, v);
      OfKeyMore(Insert(init, x, key), last, key, v);
      OfKeyMore(init, last, key, v);
      assert s == init + [last];
    }
  }

  lemma SortedNothing<T>(key: T -> int)
    ensures Descending<T>([], key)
  {
  }

  /** Sorted, a permutation, and stable. */
  lemma {:induction false} StableSortMeaning<T>(s: seq<T>, key: T -> int, v: int)
    ensures Descending(StableSort(s, key), key)
    ensures multiset(StableSort(s, key)) == multiset(s)
    ensures OfKey(StableSort(s, key), key, v) == OfKey(s, key, v)
  {
    hide Descending, OfKey, Insert;
    if s == [] {
      SortedNothing(key);
    } else {
      var init, last := s[..|s| - 1], s[|s| - 1];
      StableSortMeaning(init, key, v);
      InsertPermutes(StableSort(init, key), last, key);
      InsertSorted(StableSort(init, key), last, key, v);
      InsertStable(StableSort(init, key), last, key, v);
      OfKeyMore(init, last, key, v);
      assert s == init + [last];
    }
  }

  /** Go's `sort.Slice`: which of the sorted permutations is not promised. */
  method SortSlice<T>(s: seq<T>, key: T -> int) returns (r: seq<T>)
    ensures Descending(r, key) && multiset(r) == multiset(s)
  {
    r := StableSort(s, key);
    StableSortMeaning(s, key, 0);
  }

  /** Elements of a permutation cut off from a sorted list weigh no more than any that were kept. */
  lemma CutOff<T>(s: seq<T>, r: seq<T>, key: T -> int, n: nat, i: nat, x: T)
    requires Descending(r, key) && multiset(r) == multiset(s) && i < n <= |r| && x in s && x !in r[..n]
    ensures key(x) <= key(r[i])
  {
    assert x in multiset(s);
    assert x in r;
    var j :| 0 <= j < |r| && r[j] == x;
    forall m | 0 <= m < n ensures r[m] != x {
      assert r[..n][m] == r[m];
    }
  }
}
