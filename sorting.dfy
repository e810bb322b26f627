/** Stable ordering of rows by an integer column, the model of an SQL
    `ORDER BY` over one key. Rows with equal keys keep their table order,
    one of the orders the database is free to return. */
module Sorting {

  ghost predicate SortedBy<T>(s: seq<T>, key: T -> int)
  {
    forall i, j :: 0 <= i < j < |s| ==> key(s[i]) <= key(s[j])
  }

  /** Places `x` after every element of `t` whose key is not greater. */
  function Insert<T>(t: seq<T>, x: T, key: T -> int): (r: seq<T>)
    ensures |r| == |t| + 1
    ensures multiset(r) == multiset(t) + multiset{x}
  {
    if t == [] || key(t[|t| - 1]) <= key(x) then t + [x]
    else
      var init := t[..|t| - 1];
      assert t == init + [t[|t| - 1]];
      Insert(init, x, key) + [t[|t| - 1]]
  }

  lemma {:induction false} InsertSorted<T>(t: seq<T>, x: T, key: T -> int)
    requires SortedBy(t, key)
    ensures SortedBy(Insert(t, x, key), key)
  {
    if t == [] || key(t[|t| - 1]) <= key(x) {
    } else {
      var init := t[..|t| - 1];
      var last := t[|t| - 1];
      InsertSorted(init, x, key);
      var r' := Insert(init, x, key);
      assert t == init + [last];
      forall i | 0 <= i < |r'|
        ensures key(r'[i]) <= key(last)
      {
        assert r'[i] in multiset(r');
        assert r'[i] in multiset(init) || r'[i] == x;
        if r'[i] in multiset(init) {
          var k :| 0 <= k < |init| && init[k] == r'[i];
          assert t[k] == init[k];
        }
      }
    }
  }

  /** Stable insertion sort by `key`. */
  function SortBy<T>(s: seq<T>, key: T -> int): (r: seq<T>)
    ensures |r| == |s|
    ensures multiset(r) == multiset(s)
    ensures SortedBy(r, key)
  {
    if s == [] then []
    else
      var init := s[..|s| - 1];
      assert s == init + [s[|s| - 1]];
      var r' := SortBy(init, key);
      InsertSorted(r', s[|s| - 1], key);
      Insert(r', s[|s| - 1], key)
  }

  /** An input that is already in order is returned unchanged. */
  lemma {:induction false} SortBySorted<T>(s: seq<T>, key: T -> int)
    requires SortedBy(s, key)
    ensures SortBy(s, key) == s
  {
    if s != [] {
      var init := s[..|s| - 1];
      assert s == init + [s[|s| - 1]];
      SortBySorted(init, key);
    }
  }

  /** Appending a row whose key is not below any other key appends it to the
      sorted order. */
  lemma SortByAppendLatest<T>(s: seq<T>, x: T, key: T -> int)
    requires forall i :: 0 <= i < |s| ==> key(s[i]) <= key(x)
    ensures SortBy(s + [x], key) == SortBy(s, key) + [x]
  {
    var t := SortBy(s, key);
    assert (s + [x])[..|s|] == s;
    if t != [] {
      assert t[|t| - 1] in multiset(s);
    }
  }

  /** In a sorted sequence everything after the first `n` elements is at
      least as large as the `n`-th. */
  lemma SortedTail<T>(t: seq<T>, n: nat, key: T -> int)
    requires SortedBy(t, key) && 0 < n <= |t|
    ensures forall j :: n <= j < |t| ==> key(t[n - 1]) <= key(t[j])
  {
  }

  function Reverse<T>(s: seq<T>): (r: seq<T>)
    ensures |r| == |s|
  {
    seq(|s|, i requires 0 <= i < |s| => s[|s| - 1 - i])
  }

  function Min(a: int, b: int): int
  {
    if a <= b then a else b
  }

  /** Reading the last `k` rows of a sorted table in descending order and
      reversing them yields the last `k` rows in ascending order. */
  lemma ReverseTakeReverse<T>(s: seq<T>, k: nat)
    ensures Reverse(Reverse(s)[..Min(k, |s|)]) == s[|s| - Min(k, |s|)..]
  {
    var m := Min(k, |s|);
    var top := Reverse(s)[..m];
    forall i | 0 <= i < m
      ensures Reverse(top)[i] == s[|s| - m + i]
    {
      assert Reverse(top)[i] == top[m - 1 - i] == Reverse(s)[m - 1 - i];
    }
  }
}
