/** Python's `list.sort`: a stable sort by a key.  Keys are pairs of
    integers compared lexicographically, as Python compares tuples; a
    descending sort (`reverse=True`) is the ascending sort by the negated
    key, which keeps elements with equal keys in their prior order just as
    Python's does. */
module Sorting {

  type Key = (int, int)

  predicate KeyLe(a: Key, b: Key)
  {
    a.0 < b.0 || (a.0 == b.0 && a.1 <= b.1)
  }

  predicate SortedBy<T>(s: seq<T>, key: T -> Key)
  {
    forall i, j | 0 <= i < j < |s| :: KeyLe(key(s[i]), key(s[j]))
  }

  /** `x` placed after every element whose key is not larger than its own. */
  function Insert<T>(s: seq<T>, x: T, key: T -> Key): (r: seq<T>)
    ensures |r| == |s| + 1
  {
    if s == [] then [x]
    else if KeyLe(key(s[|s| - 1]), key(x)) then s + [x]
    else Insert(s[..|s| - 1], x, key) + [s[|s| - 1]]
  }

  function SortBy<T>(s: seq<T>, key: T -> Key): (r: seq<T>)
    ensures |r| == |s|
  {
    if s == [] then [] else Insert(SortBy(s[..|s| - 1], key), s[|s| - 1], key)
  }

  /** The elements of `s` whose key is `k`, in order. */
  function WithKey<T>(s: seq<T>, key: T -> Key, k: Key): seq<T>
  {
    if s == [] then []
    else WithKey(s[..|s| - 1], key, k) + (if key(s[|s| - 1]) == k then [s[|s| - 1]] else [])
  }

  lemma WithKeySnoc<T>(s: seq<T>, x: T, key: T -> Key, k: Key)
    ensures WithKey(s + [x], key, k) == WithKey(s, key, k) + (if key(x) == k then [x] else [])
  {
    assert (s + [x])[..|s|] == s;
  }

  /** Every element of a key group has that key. */
  lemma {:induction false} WithKeyAllKey<T>(s: seq<T>, key: T -> Key, k: Key)
    ensures forall y | y in WithKey(s, key, k) :: key(y) == k
  {
    if s != [] {
      WithKeyAllKey(s[..|s| - 1], key, k);
    }
  }

  lemma {:induction false} InsertSorted<T>(s: seq<T>, x: T, key: T -> Key)
    requires SortedBy(s, key)
    ensures SortedBy(Insert(s, x, key), key)
    ensures forall y | y in Insert(s, x, key) :: y in s || y == x
  {
    if s != [] && !KeyLe(key(s[|s| - 1]), key(x)) {
      var n := |s| - 1;
      var t := Insert(s[..n], x, key);
      InsertSorted(s[..n], x, key);
      var r := t + [s[n]];
      forall i, j | 0 <= i < j < |r|
        ensures KeyLe(key(r[i]), key(r[j]))
      {
        if j == n + 1 && i < n + 1 {
          assert r[i] in t;
          if r[i] != x {
            var m :| 0 <= m < n && s[m] == r[i];
          }
        }
      }
    }
  }

  lemma {:induction false} InsertMultiset<T>(s: seq<T>, x: T, key: T -> Key)
    ensures multiset(Insert(s, x, key)) == multiset(s) + multiset{x}
  {
    if s != [] && !KeyLe(key(s[|s| - 1]), key(x)) {
      var n := |s| - 1;
      InsertMultiset(s[..n], x, key);
      assert s == s[..n] + [s[n]];
    }
  }

  /** Inserting keeps every key group in order and appends `x` to its own. */
  lemma {:induction false} InsertKeepsGroups<T>(s: seq<T>, x: T, key: T -> Key, k: Key)
    requires SortedBy(s, key)
    ensures WithKey(Insert(s, x, key), key, k) == WithKey(s, key, k) + (if key(x) == k then [x] else [])
  {
    if s == [] {
      WithKeySnoc([], x, key, k);
    } else if KeyLe(key(s[|s| - 1]), key(x)) {
      WithKeySnoc(s, x, key, k);
    } else {
      var n := |s| - 1;
      assert SortedBy(s[..n], key);
      InsertKeepsGroups(s[..n], x, key, k);
      WithKeySnoc(Insert(s[..n], x, key), s[n], key, k);
      assert s == s[..n] + [s[n]];
      WithKeySnoc(s[..n], s[n], key, k);
      if key(x) == k {
        // s[n] sorts after x, so its key differs from k
        assert key(s[n]) != k;
      }
    }
  }

  /** The sort orders by key. */
  lemma {:induction false} SortBySorted<T>(s: seq<T>, key: T -> Key)
    ensures SortedBy(SortBy(s, key), key)
  {
    if s != [] {
      SortBySorted(s[..|s| - 1], key);
      InsertSorted(SortBy(s[..|s| - 1], key), s[|s| - 1], key);
    }
  }

  /** The sort is a permutation. */
  lemma {:induction false} SortByPermutation<T>(s: seq<T>, key: T -> Key)
    ensures multiset(SortBy(s, key)) == multiset(s)
  {
    if s != [] {
      var n := |s| - 1;
      SortByPermutation(s[..n], key);
      InsertMultiset(SortBy(s[..n], key), s[n], key);
      assert s == s[..n] + [s[n]];
    }
  }

  /** The sort is stable: the elements sharing a key keep their order. */
  lemma {:induction false} SortByStable<T>(s: seq<T>, key: T -> Key, k: Key)
    ensures WithKey(SortBy(s, key), key, k) == WithKey(s, key, k)
  {
    if s != [] {
      var n := |s| - 1;
      SortByStable(s[..n], key, k);
      SortBySorted(s[..n], key);
      InsertKeepsGroups(SortBy(s[..n], key), s[n], key, k);
    }
  }
}
