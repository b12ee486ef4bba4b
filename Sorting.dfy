/**
 * Sorting by a string key, as Ruby's `Array#sort` (key: the element itself)
 * and `Array#sort_by` do, and the fact that makes the result canonical: two
 * sorted arrangements of the same elements are equal once equal keys mean
 * equal elements.
 */
module Sorting {
  import opened Strings

  /** The keys of `s` ascend (ties allowed). */
  ghost predicate SortedBy<T>(s: seq<T>, key: T -> string) {
    forall i, j :: 0 <= i < j < |s| ==> AtMost(key(s[i]), key(s[j]))
  }

  /** Within `m`, the key tells elements apart. */
  ghost predicate KeyDistinguishes<T>(m: multiset<T>, key: T -> string) {
    forall x, y :: x in m && y in m && key(x) == key(y) ==> x == y
  }

  /** Every element of `m` has a key no smaller than `k`. */
  ghost predicate AllAtLeast<T>(m: multiset<T>, key: T -> string, k: string) {
    forall x :: x in m ==> AtMost(k, key(x))
  }

  lemma SortedTailAtLeastHead<T>(s: seq<T>, key: T -> string)
    requires s != [] && SortedBy(s, key)
    ensures AllAtLeast(multiset(s[1..]), key, key(s[0]))
  {
    forall x | x in multiset(s[1..])
      ensures AtMost(key(s[0]), key(x))
    {
      var j :| 0 <= j < |s[1..]| && s[1..][j] == x;
      assert s[j + 1] == x;
    }
  }

  /** Inserts `x` before the first element whose key is not below `x`'s. */
  function InsertBy<T>(x: T, s: seq<T>, key: T -> string): (r: seq<T>)
    requires SortedBy(s, key)
    ensures multiset(r) == multiset(s) + multiset{x}
    ensures SortedBy(r, key)
  {
    if s == [] then [x]
    else if AtMost(key(x), key(s[0])) then
      InsertFront(x, s, key);
      [x] + s
    else
      var rest := InsertBy(x, s[1..], key);
      InsertBehind(x, s, rest, key);
      [s[0]] + rest
  }

  /** An element no greater than every key of a sorted sequence can lead it. */
  lemma ConsSorted<T>(h: T, t: seq<T>, key: T -> string)
    requires SortedBy(t, key)
    requires forall j :: 0 <= j < |t| ==> AtMost(key(h), key(t[j]))
    ensures SortedBy([h] + t, key)
  {
    var r := [h] + t;
    forall i, j | 0 <= i < j < |r|
      ensures AtMost(key(r[i]), key(r[j]))
    {
      assert r[j] == t[j - 1];
      if i > 0 {
        assert r[i] == t[i - 1];
      }
    }
  }

  lemma InsertFront<T>(x: T, s: seq<T>, key: T -> string)
    requires SortedBy(s, key) && s != [] && AtMost(key(x), key(s[0]))
    ensures SortedBy([x] + s, key)
  {
    forall j | 0 <= j < |s|
      ensures AtMost(key(x), key(s[j]))
    {
      if j > 0 {
        AtMostTransitive(key(x), key(s[0]), key(s[j]));
      }
    }
    ConsSorted(x, s, key);
  }

  lemma InsertBehind<T>(x: T, s: seq<T>, rest: seq<T>, key: T -> string)
    requires SortedBy(s, key) && s != [] && !AtMost(key(x), key(s[0]))
    requires SortedBy(rest, key) && multiset(rest) == multiset(s[1..]) + multiset{x}
    ensures SortedBy([s[0]] + rest, key)
    ensures multiset([s[0]] + rest) == multiset(s) + multiset{x}
  {
    AtMostTotal(key(x), key(s[0]));
    SortedTailAtLeastHead(s, key);
    forall j | 0 <= j < |rest|
      ensures AtMost(key(s[0]), key(rest[j]))
    {
      assert rest[j] in multiset(rest);
    }
    ConsSorted(s[0], rest, key);
    assert s == [s[0]] + s[1..];
  }

  /** Insertion sort by `key`: a sorted permutation of `s`. */
  function SortBy<T>(s: seq<T>, key: T -> string): (r: seq<T>)
    ensures multiset(r) == multiset(s)
    ensures SortedBy(r, key)
  {
    if s == [] then []
    else
      assert s == [s[0]] + s[1..];
      InsertBy(s[0], SortBy(s[1..], key), key)
  }

  lemma SortedFirstAtMost<T>(s: seq<T>, key: T -> string, k: nat)
    requires SortedBy(s, key) && k < |s|
    ensures AtMost(key(s[0]), key(s[k]))
  {
  }

  lemma SortedTail<T>(s: seq<T>, key: T -> string)
    requires SortedBy(s, key) && s != []
    ensures SortedBy(s[1..], key)
  {
    forall i, j | 0 <= i < j < |s| - 1
      ensures AtMost(key(s[1..][i]), key(s[1..][j]))
    {
      assert s[1..][i] == s[i + 1] && s[1..][j] == s[j + 1];
    }
  }

  lemma TailMultiset<T>(s: seq<T>)
    requires s != []
    ensures multiset(s[1..]) == multiset(s) - multiset{s[0]}
    ensures multiset(s[1..]) <= multiset(s)
  {
    assert s == [s[0]] + s[1..];
  }

  lemma DistinguishesWithin<T>(m: multiset<T>, n: multiset<T>, key: T -> string)
    requires n <= m && KeyDistinguishes(m, key)
    ensures KeyDistinguishes(n, key)
  {
  }

  lemma SameHeadAndTail<T>(a: seq<T>, b: seq<T>)
    requires a != [] && b != [] && a[0] == b[0] && a[1..] == b[1..]
    ensures a == b
  {
    assert a == [a[0]] + a[1..] && b == [b[0]] + b[1..];
  }

  /**
   * Sorting leaves one arrangement only: two sorted sequences holding the
   * same elements are equal, provided equal keys mean equal elements.
   */
  lemma {:induction false} SortedUnique<T>(a: seq<T>, b: seq<T>, key: T -> string)
    requires SortedBy(a, key) && SortedBy(b, key)
    requires multiset(a) == multiset(b)
    requires KeyDistinguishes(multiset(a), key)
    ensures a == b
  {
    if a == [] {
      assert |b| == |multiset(b)| == 0;
    } else {
      assert a[0] in multiset(b);
      var j :| 0 <= j < |b| && b[j] == a[0];
      assert b[0] in multiset(a);
      var i :| 0 <= i < |a| && a[i] == b[0];
      SortedFirstAtMost(a, key, i);
      SortedFirstAtMost(b, key, j);
      AtMostAntisymmetric(key(a[0]), key(b[0]));
      assert a[0] == b[0] by {
        assert a[0] in multiset(a) && b[0] in multiset(a);
      }
      TailMultiset(a);
      TailMultiset(b);
      SortedTail(a, key);
      SortedTail(b, key);
      DistinguishesWithin(multiset(a), multiset(a[1..]), key);
      SortedUnique(a[1..], b[1..], key);
      SameHeadAndTail(a, b);
    }
  }

  /** Sorting forgets the order of its input. */
  lemma SortByPermutation<T>(a: seq<T>, b: seq<T>, key: T -> string)
    requires multiset(a) == multiset(b)
    requires KeyDistinguishes(multiset(a), key)
    ensures SortBy(a, key) == SortBy(b, key)
  {
    SortedUnique(SortBy(a, key), SortBy(b, key), key);
  }
}
