/** Sequence helpers shared by the list operations of the forum: `Array.prototype.filter`,
    counting, and flattening an array of arrays. */
module Seqs {

  /** The elements of `s` satisfying `p`, in their original order. */
  function Filter<T>(p: T -> bool, s: seq<T>): (r: seq<T>)
    ensures |r| <= |s|
    ensures forall i :: 0 <= i < |r| ==> p(r[i])
    decreases |s|
  {
    if |s| == 0 then []
    else if p(s[0]) then [s[0]] + Filter(p, s[1..]) else Filter(p, s[1..])
  }

  /** Filtering keeps every element satisfying `p` and adds nothing: the result is a
      sub-multiset of the input. */
  lemma {:induction false} FilterMembers<T>(p: T -> bool, s: seq<T>)
    ensures forall i :: 0 <= i < |s| && p(s[i]) ==> s[i] in Filter(p, s)
    ensures multiset(Filter(p, s)) <= multiset(s)
    decreases |s|
  {
    if |s| > 0 {
      FilterMembers(p, s[1..]);
      assert s == [s[0]] + s[1..];
      forall i | 0 < i < |s| && p(s[i])
        ensures s[i] in Filter(p, s)
      {
        assert s[i] == s[1..][i - 1];
      }
    }
  }

  /** Filtering distributes over concatenation, so it keeps the relative order of what it keeps. */
  lemma {:induction false} FilterConcat<T>(p: T -> bool, a: seq<T>, b: seq<T>)
    ensures Filter(p, a + b) == Filter(p, a) + Filter(p, b)
    decreases |a|
  {
    if |a| == 0 {
      assert a + b == b;
    } else {
      assert (a + b)[1..] == a[1..] + b;
      FilterConcat(p, a[1..], b);
    }
  }

  /** Filtering with a predicate that every element satisfies is the identity. */
  lemma {:induction false} FilterKeepsAll<T>(p: T -> bool, s: seq<T>)
    requires forall i :: 0 <= i < |s| ==> p(s[i])
    ensures Filter(p, s) == s
    decreases |s|
  {
    if |s| > 0 {
      FilterKeepsAll(p, s[1..]);
    }
  }

  /** Filtering with a predicate that no element satisfies gives the empty sequence. */
  lemma {:induction false} FilterDropsAll<T>(p: T -> bool, s: seq<T>)
    requires forall i :: 0 <= i < |s| ==> !p(s[i])
    ensures Filter(p, s) == []
    decreases |s|
  {
    if |s| > 0 {
      FilterDropsAll(p, s[1..]);
    }
  }

  /** Number of elements of `s` satisfying `p` (`s.filter(p).length`). */
  function Count<T>(p: T -> bool, s: seq<T>): (n: nat)
    ensures n <= |s|
    ensures n == 0 <==> forall i :: 0 <= i < |s| ==> !p(s[i])
    ensures n == |s| <==> forall i :: 0 <= i < |s| ==> p(s[i])
    decreases |s|
  {
    if |s| == 0 then 0 else (if p(s[0]) then 1 else 0) + Count(p, s[1..])
  }

  /** The count is the length of the filtered sequence. */
  lemma {:induction false} CountIsFilterLength<T>(p: T -> bool, s: seq<T>)
    ensures Count(p, s) == |Filter(p, s)|
    decreases |s|
  {
    if |s| > 0 {
      CountIsFilterLength(p, s[1..]);
    }
  }

  /** How often `x` survives filtering: as often as in `s` when it satisfies `p`, never
      otherwise. */
  lemma {:induction false} FilterMultiplicity<T>(p: T -> bool, s: seq<T>, x: T)
    ensures multiset(Filter(p, s))[x] == if p(x) then multiset(s)[x] else 0
    decreases |s|
  {
    if |s| > 0 {
      FilterMultiplicity(p, s[1..], x);
      assert s == [s[0]] + s[1..];
    }
  }

  /** Filtering first can only lower a count. */
  lemma {:induction false} CountOfFilter<T>(p: T -> bool, q: T -> bool, s: seq<T>)
    ensures Count(p, Filter(q, s)) <= Count(p, s)
    decreases |s|
  {
    if |s| > 0 {
      CountOfFilter(p, q, s[1..]);
      if q(s[0]) {
        assert ([s[0]] + Filter(q, s[1..]))[1..] == Filter(q, s[1..]);
      }
    }
  }

  /** Counting over two sequences of the same length, where each position of `b` satisfies `q`
      only if the same position of `a` satisfies `p`: the count on `b` is at most the one on
      `a`, and strictly below it when some position satisfies `p` in `a` but not `q` in `b`. */
  lemma {:induction false} CountPointwise<T, U>(p: T -> bool, a: seq<T>, q: U -> bool, b: seq<U>)
    requires |a| == |b|
    requires forall i :: 0 <= i < |b| && q(b[i]) ==> p(a[i])
    ensures Count(q, b) <= Count(p, a)
    ensures (exists i :: 0 <= i < |a| && p(a[i]) && !q(b[i])) ==> Count(q, b) < Count(p, a)
    decreases |a|
  {
    if |a| > 0 {
      CountPointwise(p, a[1..], q, b[1..]);
      if exists i :: 0 <= i < |a| && p(a[i]) && !q(b[i]) {
        var i :| 0 <= i < |a| && p(a[i]) && !q(b[i]);
        if i > 0 {
          assert p(a[1..][i - 1]) && !q(b[1..][i - 1]);
        }
      }
    }
  }

  /** Concatenation of the inner sequences, in order. */
  function Flatten<T>(ss: seq<seq<T>>): (r: seq<T>)
    decreases |ss|
  {
    if |ss| == 0 then [] else ss[0] + Flatten(ss[1..])
  }

  lemma {:induction false} FlattenAppend<T>(ss: seq<seq<T>>, s: seq<T>)
    ensures Flatten(ss + [s]) == Flatten(ss) + s
    decreases |ss|
  {
    if |ss| == 0 {
      assert ss + [s] == [s];
    } else {
      assert (ss + [s])[1..] == ss[1..] + [s];
      FlattenAppend(ss[1..], s);
    }
  }
}
