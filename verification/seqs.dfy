/** Sequence filtering as `Array.prototype.filter` and Python list
    comprehensions do it: keep the elements a test accepts, in their order. */
module Seqs {

  /** Both tests at once. */
  function Both<T>(p: T -> bool, q: T -> bool): T -> bool {
    x => p(x) && q(x)
  }

  /** The opposite test. */
  function Not<T>(p: T -> bool): T -> bool {
    x => !p(x)
  }

  /** `xs.filter(p)`. */
  function Keep<T>(xs: seq<T>, p: T -> bool): (r: seq<T>)
    ensures |r| <= |xs|
    ensures forall i :: 0 <= i < |r| ==> p(r[i])
    ensures forall i :: 0 <= i < |xs| && p(xs[i]) ==> xs[i] in r
    ensures forall x :: x in r ==> x in xs
  {
    if xs == [] then []
    else if p(xs[0]) then [xs[0]] + Keep(xs[1..], p)
    else Keep(xs[1..], p)
  }

  /** `a` is `b` with some elements left out and the rest in their order. */
  predicate IsSubsequence<T(==)>(a: seq<T>, b: seq<T>)
    decreases |b|
  {
    if a == [] then true
    else if b == [] then false
    else (a[0] == b[0] && IsSubsequence(a[1..], b[1..])) || IsSubsequence(a, b[1..])
  }

  /** A filter keeps the order of what it keeps. */
  lemma {:induction false} KeepIsSubsequence<T>(xs: seq<T>, p: T -> bool)
    ensures IsSubsequence(Keep(xs, p), xs)
    decreases |xs|
  {
    if xs != [] {
      KeepIsSubsequence(xs[1..], p);
      if p(xs[0]) {
        assert Keep(xs, p)[1..] == Keep(xs[1..], p);
      }
    }
  }

  /** Filtering a sequence with one more element at the end. */
  lemma KeepAppend<T>(xs: seq<T>, x: T, p: T -> bool)
    ensures Keep(xs + [x], p) == if p(x) then Keep(xs, p) + [x] else Keep(xs, p)
    decreases |xs|
  {
    if xs != [] {
      assert (xs + [x])[1..] == xs[1..] + [x];
      KeepAppend(xs[1..], x, p);
    }
  }

  /** Filtering a prefix one element longer. */
  lemma KeepPrefixStep<T>(xs: seq<T>, i: int, p: T -> bool)
    requires 0 <= i < |xs|
    ensures Keep(xs[..i + 1], p) == if p(xs[i]) then Keep(xs[..i], p) + [xs[i]] else Keep(xs[..i], p)
  {
    assert xs[..i + 1] == xs[..i] + [xs[i]];
    KeepAppend(xs[..i], xs[i], p);
  }

  /** Filtering twice is filtering once by both tests. */
  lemma {:induction false} KeepKeep<T>(xs: seq<T>, p: T -> bool, q: T -> bool)
    ensures Keep(Keep(xs, p), q) == Keep(xs, Both(p, q))
    decreases |xs|
  {
    if xs != [] {
      KeepKeep(xs[1..], p, q);
      if p(xs[0]) {
        assert Keep(xs, p)[1..] == Keep(xs[1..], p);
      }
    }
  }

  /** Filters that agree on the elements give the same result. */
  lemma {:induction false} KeepCongruent<T>(xs: seq<T>, p: T -> bool, q: T -> bool)
    requires forall i :: 0 <= i < |xs| ==> p(xs[i]) == q(xs[i])
    ensures Keep(xs, p) == Keep(xs, q)
    decreases |xs|
  {
    if xs != [] {
      KeepCongruent(xs[1..], p, q);
    }
  }

  /** A test that every element passes leaves the sequence unchanged. */
  lemma {:induction false} KeepAll<T>(xs: seq<T>, p: T -> bool)
    requires forall i :: 0 <= i < |xs| ==> p(xs[i])
    ensures Keep(xs, p) == xs
    decreases |xs|
  {
    if xs != [] {
      KeepAll(xs[1..], p);
    }
  }

  /** A test that no element passes leaves nothing. */
  lemma {:induction false} KeepNone<T>(xs: seq<T>, p: T -> bool)
    requires forall i :: 0 <= i < |xs| ==> !p(xs[i])
    ensures Keep(xs, p) == []
    decreases |xs|
  {
    if xs != [] {
      KeepNone(xs[1..], p);
    }
  }

  /** Filtering an already filtered sequence by the same test changes nothing. */
  lemma KeepIdempotent<T>(xs: seq<T>, p: T -> bool)
    ensures Keep(Keep(xs, p), p) == Keep(xs, p)
  {
    KeepAll(Keep(xs, p), p);
  }

  /** A filter and its complement split the sequence: together they hold
      every element exactly as often as the sequence does. */
  lemma {:induction false} KeepSplits<T>(xs: seq<T>, p: T -> bool)
    ensures multiset(Keep(xs, p)) + multiset(Keep(xs, Not(p))) == multiset(xs)
    ensures |Keep(xs, p)| + |Keep(xs, Not(p))| == |xs|
    decreases |xs|
  {
    if xs != [] {
      KeepSplits(xs[1..], p);
      assert xs == [xs[0]] + xs[1..];
    }
  }

  /** Exactly one of four tests holds. */
  predicate OneOfFour(a: bool, b: bool, c: bool, d: bool) {
    (a && !b && !c && !d) || (!a && b && !c && !d) || (!a && !b && c && !d) || (!a && !b && !c && d)
  }

  /** Four tests of which each element passes exactly one split the sequence
      into four filters that together hold every element exactly as often. */
  lemma {:induction false} KeepFour<T>(xs: seq<T>, p: T -> bool, q: T -> bool, r: T -> bool, s: T -> bool)
    requires forall i :: 0 <= i < |xs| ==> OneOfFour(p(xs[i]), q(xs[i]), r(xs[i]), s(xs[i]))
    ensures |Keep(xs, p)| + |Keep(xs, q)| + |Keep(xs, r)| + |Keep(xs, s)| == |xs|
    ensures multiset(Keep(xs, p)) + multiset(Keep(xs, q)) + multiset(Keep(xs, r)) + multiset(Keep(xs, s))
         == multiset(xs)
    decreases |xs|
  {
    if xs != [] {
      KeepFour(xs[1..], p, q, r, s);
      assert xs == [xs[0]] + xs[1..];
    }
  }

  // ---------------------------------------------------------------------------
  // Stable sorting by an integer key (Python's `list.sort(key=…)`)

  predicate SortedBy<T>(xs: seq<T>, key: T -> int) {
    forall i, j :: 0 <= i < j < |xs| ==> key(xs[i]) <= key(xs[j])
  }

  /** The elements whose key is `k`. */
  function KeyIs<T>(key: T -> int, k: int): T -> bool {
    x => key(x) == k
  }

  /** Puts `x` into a sorted sequence before the first element whose key is
      not smaller. */
  function Insert<T>(x: T, ys: seq<T>, key: T -> int): (r: seq<T>)
    ensures |r| == |ys| + 1
    decreases |ys|
  {
    if ys == [] || key(x) <= key(ys[0]) then [x] + ys
    else [ys[0]] + Insert(x, ys[1..], key)
  }

  /** Insertion sort; like Python's sort it keeps equal keys in their order. */
  function SortBy<T>(xs: seq<T>, key: T -> int): (r: seq<T>)
    ensures |r| == |xs|
    decreases |xs|
  {
    if xs == [] then [] else Insert(xs[0], SortBy(xs[1..], key), key)
  }

  lemma {:induction false} InsertPermutes<T>(x: T, ys: seq<T>, key: T -> int)
    ensures multiset(Insert(x, ys, key)) == multiset(ys) + multiset{x}
    decreases |ys|
  {
    if ys != [] && key(x) > key(ys[0]) {
      InsertPermutes(x, ys[1..], key);
      assert ys == [ys[0]] + ys[1..];
    }
  }

  lemma {:induction false} InsertSorted<T>(x: T, ys: seq<T>, key: T -> int)
    requires SortedBy(ys, key)
    ensures SortedBy(Insert(x, ys, key), key)
    decreases |ys|
  {
    if ys != [] && key(x) > key(ys[0]) {
      InsertSorted(x, ys[1..], key);
      InsertPermutes(x, ys[1..], key);
      var r := Insert(x, ys, key);
      forall i | 1 <= i < |r|
        ensures key(r[0]) <= key(r[i])
      {
        assert r[i] in multiset(Insert(x, ys[1..], key));
        assert r[i] == x || r[i] in multiset(ys[1..]);
      }
    }
  }

  /** Inserting into a sorted sequence adds `x` in front of the other
      elements of its key and leaves the other keys' orders alone. */
  lemma {:induction false} InsertStable<T>(x: T, ys: seq<T>, key: T -> int, k: int)
    requires SortedBy(ys, key)
    ensures Keep(Insert(x, ys, key), KeyIs(key, k))
         == if key(x) == k then [x] + Keep(ys, KeyIs(key, k)) else Keep(ys, KeyIs(key, k))
    decreases |ys|
  {
    if ys != [] && key(x) > key(ys[0]) {
      InsertStable(x, ys[1..], key, k);
    }
  }

  lemma {:induction false} SortByPermutes<T>(xs: seq<T>, key: T -> int)
    ensures multiset(SortBy(xs, key)) == multiset(xs)
    decreases |xs|
  {
    if xs != [] {
      SortByPermutes(xs[1..], key);
      InsertPermutes(xs[0], SortBy(xs[1..], key), key);
      assert xs == [xs[0]] + xs[1..];
    }
  }

  lemma {:induction false} SortBySorted<T>(xs: seq<T>, key: T -> int)
    ensures SortedBy(SortBy(xs, key), key)
    decreases |xs|
  {
    if xs != [] {
      SortBySorted(xs[1..], key);
      InsertSorted(xs[0], SortBy(xs[1..], key), key);
    }
  }

  /** Stability: the elements of each key come out in their input order. */
  lemma {:induction false} SortByStable<T>(xs: seq<T>, key: T -> int, k: int)
    ensures Keep(SortBy(xs, key), KeyIs(key, k)) == Keep(xs, KeyIs(key, k))
    decreases |xs|
  {
    if xs != [] {
      SortByStable(xs[1..], key, k);
      SortBySorted(xs[1..], key);
      InsertStable(xs[0], SortBy(xs[1..], key), key, k);
    }
  }

  /** No two elements share a key. */
  predicate KeysDistinct<T>(xs: seq<T>, key: T -> int) {
    forall i, j :: 0 <= i < j < |xs| ==> key(xs[i]) != key(xs[j])
  }

  lemma {:induction false} KeepKeysDistinct<T>(xs: seq<T>, p: T -> bool, key: T -> int)
    requires KeysDistinct(xs, key)
    ensures KeysDistinct(Keep(xs, p), key)
    decreases |xs|
  {
    if xs != [] {
      KeepKeysDistinct(xs[1..], p, key);
      var r := Keep(xs[1..], p);
      forall y | y in r
        ensures key(y) != key(xs[0])
      {
        assert y in xs[1..];
      }
    }
  }

  lemma {:induction false} InsertKeysDistinct<T>(x: T, ys: seq<T>, key: T -> int)
    requires KeysDistinct(ys, key)
    requires forall y :: y in ys ==> key(y) != key(x)
    ensures KeysDistinct(Insert(x, ys, key), key)
    decreases |ys|
  {
    if ys != [] && key(x) > key(ys[0]) {
      InsertKeysDistinct(x, ys[1..], key);
      InsertPermutes(x, ys[1..], key);
      var r := Insert(x, ys[1..], key);
      forall y | y in r
        ensures key(y) != key(ys[0])
      {
        assert y in multiset(r);
      }
    }
  }

  /** Sorting keeps keys distinct; sorted and distinct, they strictly grow. */
  lemma {:induction false} SortByKeysDistinct<T>(xs: seq<T>, key: T -> int)
    requires KeysDistinct(xs, key)
    ensures KeysDistinct(SortBy(xs, key), key)
    ensures forall i, j :: 0 <= i < j < |xs| ==> key(SortBy(xs, key)[i]) < key(SortBy(xs, key)[j])
    decreases |xs|
  {
    if xs != [] {
      SortByKeysDistinct(xs[1..], key);
      SortByPermutes(xs[1..], key);
      forall y | y in SortBy(xs[1..], key)
        ensures key(y) != key(xs[0])
      {
        assert y in multiset(xs[1..]);
      }
      InsertKeysDistinct(xs[0], SortBy(xs[1..], key), key);
    }
    SortBySorted(xs, key);
  }
}
