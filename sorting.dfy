/**
 * `Array.prototype.sort` with a comparator of the form `(a, b) => key(b) - key(a)`:
 * a stable sort into non-increasing key order (ECMAScript requires stability since 2019).
 * Store queries ordered by a column (`ORDER BY c DESC`) are modelled with the same
 * function, rows with equal keys keeping their table order.
 */
module Sorting {

  predicate SortedDesc<T>(s: seq<T>, key: T -> real) {
    forall i, j :: 0 <= i < j < |s| ==> key(s[i]) >= key(s[j])
  }

  /** Insert x before the first element whose key is not greater than x's. */
  function InsertDesc<T>(x: T, s: seq<T>, key: T -> real): (r: seq<T>)
    requires SortedDesc(s, key)
    ensures SortedDesc(r, key)
    ensures multiset(r) == multiset(s) + multiset{x}
    ensures |r| == |s| + 1
  {
    if s == [] then [x]
    else if key(s[0]) > key(x) then
      var rest := InsertDesc(x, s[1..], key);
      assert s == [s[0]] + s[1..];
      HeadBound(s[0], rest, s[1..], x, key);
      [s[0]] + rest
    else
      [x] + s
  }

  /** A key bound on a sequence and on x carries over to any permutation of the two. */
  lemma HeadBound<T>(h: T, rest: seq<T>, tail: seq<T>, x: T, key: T -> real)
    requires multiset(rest) == multiset(tail) + multiset{x}
    requires forall k :: 0 <= k < |tail| ==> key(h) >= key(tail[k])
    requires key(h) >= key(x)
    ensures forall k :: 0 <= k < |rest| ==> key(h) >= key(rest[k])
  {
    forall k | 0 <= k < |rest| ensures key(h) >= key(rest[k]) {
      assert rest[k] in multiset(rest);
      if rest[k] in multiset(tail) {
        var m :| 0 <= m < |tail| && tail[m] == rest[k];
      }
    }
  }

  /** The stable sort by non-increasing key. */
  function SortDesc<T>(s: seq<T>, key: T -> real): (r: seq<T>)
    ensures SortedDesc(r, key)
    ensures multiset(r) == multiset(s)
    ensures |r| == |s|
  {
    if s == [] then []
    else
      assert s == [s[0]] + s[1..];
      InsertDesc(s[0], SortDesc(s[1..], key), key)
  }

  /** Sorting keeps the elements: membership is unchanged. */
  lemma SortDescMembers<T>(s: seq<T>, key: T -> real, x: T)
    ensures x in SortDesc(s, key) <==> x in s
  {
    var r := SortDesc(s, key);
    assert x in r <==> x in multiset(r);
    assert x in s <==> x in multiset(s);
  }

  /** The elements of s whose key is k, in their order in s. */
  function WithKey<T>(s: seq<T>, key: T -> real, k: real): (r: seq<T>)
    ensures |r| <= |s|
  {
    if s == [] then [] else (if key(s[0]) == k then [s[0]] else []) + WithKey(s[1..], key, k)
  }

  /** The elements with key k of x followed by s. */
  function Marked<T>(x: T, s: seq<T>, key: T -> real, k: real): seq<T> {
    (if key(x) == k then [x] else []) + WithKey(s, key, k)
  }

  /** x goes in ahead of every element already there whose key equals its own. */
  lemma {:induction false} InsertDescWithKey<T>(x: T, s: seq<T>, key: T -> real, k: real)
    requires SortedDesc(s, key)
    ensures WithKey(InsertDesc(x, s, key), key, k) == Marked(x, s, key, k)
    decreases |s|
  {
    if s != [] && key(s[0]) > key(x) {
      InsertDescWithKey(x, s[1..], key, k);
      PastHead(x, s, InsertDesc(x, s[1..], key), key, k);
    } else {
      WithKeyCons(x, s, key, k);
    }
  }

  /** The elements with key k of a sequence that starts with h. */
  lemma WithKeyCons<T>(h: T, t: seq<T>, key: T -> real, k: real)
    ensures WithKey([h] + t, key, k) == Marked(h, t, key, k)
  {
    assert ([h] + t)[0] == h && ([h] + t)[1..] == t;
  }

  /** Past a heavier head, x still leads the elements of its key: the head is not one of them. */
  lemma PastHead<T>(x: T, s: seq<T>, rest: seq<T>, key: T -> real, k: real)
    requires s != [] && key(s[0]) > key(x)
    requires WithKey(rest, key, k) == Marked(x, s[1..], key, k)
    ensures WithKey([s[0]] + rest, key, k) == Marked(x, s, key, k)
  {
    WithKeyCons(s[0], rest, key, k);
    WithKeyCons(s[0], s[1..], key, k);
    assert [s[0]] + s[1..] == s;
    if key(x) != k {
      var head := if key(s[0]) == k then [s[0]] else [];
      assert [] + (head + WithKey(s[1..], key, k)) == head + WithKey(s[1..], key, k);
    }
  }

  /**
   * The sort is stable: for every key, the elements with that key come out in the order
   * they went in.
   */
  lemma {:induction false} SortDescStable<T>(s: seq<T>, key: T -> real, k: real)
    ensures WithKey(SortDesc(s, key), key, k) == WithKey(s, key, k)
    decreases |s|
  {
    if s != [] {
      SortDescStable(s[1..], key, k);
      InsertDescWithKey(s[0], SortDesc(s[1..], key), key, k);
    }
  }
}
