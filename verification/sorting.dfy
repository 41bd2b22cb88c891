/** `Array.prototype.sort` with a comparator of the form `(a, b) => key(b) - key(a)`: a stable
    sort into non-increasing key order. ECMAScript requires `sort` to be stable, so elements with
    equal keys keep their original relative order; insertion sort from the back has that property. */
module Sorting {

  /** Keys never increase from left to right. */
  ghost predicate SortedDesc<T>(key: T -> int, s: seq<T>)
  {
    forall i, j :: 0 <= i < j < |s| ==> key(s[i]) >= key(s[j])
  }

  /** Places `x` in front of the first element whose key is not greater than its own. */
  function Insert<T>(key: T -> int, x: T, s: seq<T>): (r: seq<T>)
    requires SortedDesc(key, s)
    ensures SortedDesc(key, r)
    ensures multiset(r) == multiset{x} + multiset(s)
    ensures |r| == |s| + 1
    decreases |s|
  {
    if |s| == 0 || key(x) >= key(s[0]) then [x] + s
    else
      var rest := Insert(key, x, s[1..]);
      assert s == [s[0]] + s[1..];
      HeadDominates(key, x, s, rest);
      [s[0]] + rest
  }

  /** The head of a sorted `s` bounds every key of a permutation of `x` and the tail of `s`,
      when it bounds `x`'s key. */
  lemma HeadDominates<T>(key: T -> int, x: T, s: seq<T>, rest: seq<T>)
    requires SortedDesc(key, s) && |s| > 0 && key(x) < key(s[0])
    requires SortedDesc(key, rest) && multiset(rest) == multiset{x} + multiset(s[1..])
    ensures SortedDesc(key, [s[0]] + rest)
  {
    forall k | 0 <= k < |rest|
      ensures key(s[0]) >= key(rest[k])
    {
      assert rest[k] in multiset(rest);
      if rest[k] != x {
        assert rest[k] in multiset(s[1..]);
        var j :| 0 <= j < |s[1..]| && s[1..][j] == rest[k];
        assert s[j + 1] == rest[k];
      }
    }
    var r := [s[0]] + rest;
    forall i, j | 0 <= i < j < |r|
      ensures key(r[i]) >= key(r[j])
    {
      assert r[j] == rest[j - 1];
      if i > 0 {
        assert r[i] == rest[i - 1];
      }
    }
  }

  /** The stably sorted permutation of `s`, largest key first. */
  function SortDesc<T>(key: T -> int, s: seq<T>): (r: seq<T>)
    ensures SortedDesc(key, r)
    ensures multiset(r) == multiset(s)
    ensures |r| == |s|
    decreases |s|
  {
    if |s| == 0 then []
    else
      assert s == [s[0]] + s[1..];
      Insert(key, s[0], SortDesc(key, s[1..]))
  }

  /** The elements of `s` whose key equals `k`, in order. */
  function WithKey<T>(key: T -> int, k: int, s: seq<T>): seq<T>
    decreases |s|
  {
    if |s| == 0 then [] else (if key(s[0]) == k then [s[0]] else []) + WithKey(key, k, s[1..])
  }

  /** Stability: for each key value, the elements carrying it appear in the sorted result in
      the same order as in the input. */
  lemma {:induction false} SortDescIsStable<T>(key: T -> int, s: seq<T>, k: int)
    ensures WithKey(key, k, SortDesc(key, s)) == WithKey(key, k, s)
    decreases |s|
  {
    if |s| > 0 {
      SortDescIsStable(key, s[1..], k);
      InsertIsStable(key, s[0], SortDesc(key, s[1..]), k);
      assert ([s[0]] + s[1..])[1..] == s[1..];
    }
  }

  lemma {:induction false} InsertIsStable<T>(key: T -> int, x: T, s: seq<T>, k: int)
    requires SortedDesc(key, s)
    ensures WithKey(key, k, Insert(key, x, s)) == WithKey(key, k, [x] + s)
    decreases |s|
  {
    if |s| > 0 && key(x) < key(s[0]) {
      InsertIsStable(key, x, s[1..], k);
      var rest := Insert(key, x, s[1..]);
      assert ([s[0]] + rest)[1..] == rest;
      assert ([x] + s[1..])[1..] == s[1..];
      assert ([x] + s)[1..] == s;
    }
  }
}
