/**
 * Generic sequence helpers: order-preserving filtering, mapping, masked sums,
 * first-appearance de-duplication and subsequences. Every fold runs from the
 * front of the sequence to its back, as `Array.prototype.forEach` does, so each
 * is defined by recursion on the prefix `s[..|s| - 1]`.
 */
module Seqs {

  /** The elements of `s` satisfying `p`, in their original order (`Array.prototype.filter`). */
  function Filter<T>(s: seq<T>, p: T -> bool): (r: seq<T>)
    ensures |r| <= |s|
    ensures forall i :: 0 <= i < |r| ==> p(r[i]) && r[i] in s
    ensures forall i :: 0 <= i < |s| && p(s[i]) ==> s[i] in r
  {
    if |s| == 0 then []
    else
      var r' := Filter(s[..|s| - 1], p);
      assert s == s[..|s| - 1] + [s[|s| - 1]];
      r' + (if p(s[|s| - 1]) then [s[|s| - 1]] else [])
  }

  /** `f` applied to every element of `s` (`Array.prototype.map`). */
  function Map<T, U>(s: seq<T>, f: T -> U): (r: seq<U>)
    ensures |r| == |s|
    ensures forall i :: 0 <= i < |s| ==> r[i] == f(s[i])
  {
    if |s| == 0 then [] else Map(s[..|s| - 1], f) + [f(s[|s| - 1])]
  }

  /** The sum of `v` over the elements of `s` that satisfy `p`. */
  function SumWhere<T>(s: seq<T>, p: T -> bool, v: T -> real): real
  {
    if |s| == 0 then 0.0
    else SumWhere(s[..|s| - 1], p, v) + (if p(s[|s| - 1]) then v(s[|s| - 1]) else 0.0)
  }

  /** The sum of `v` over all elements of `s`. */
  function SumOf<T>(s: seq<T>, v: T -> real): real
  {
    if |s| == 0 then 0.0 else SumOf(s[..|s| - 1], v) + v(s[|s| - 1])
  }

  /** No value occurs twice in `s`. */
  predicate Distinct<T(==)>(s: seq<T>) {
    forall i, j :: 0 <= i < j < |s| ==> s[i] != s[j]
  }

  /** The position of the first occurrence of `x` in `s`. */
  function FirstIndex<T(==)>(s: seq<T>, x: T): (i: nat)
    requires x in s
    ensures i < |s| && s[i] == x && x !in s[..i]
  {
    if x in s[..|s| - 1] then FirstIndex(s[..|s| - 1], x)
    else
      assert s == s[..|s| - 1] + [s[|s| - 1]];
      |s| - 1
  }

  /**
   * The values of `s`, each kept at its first occurrence only: the order in
   * which a JS `Set` (or a plain object's string keys) enumerates them.
   */
  function Dedup<T(==)>(s: seq<T>): (r: seq<T>)
    ensures Distinct(r)
    ensures forall i :: 0 <= i < |r| ==> r[i] in s
    ensures forall i :: 0 <= i < |s| ==> s[i] in r
  {
    if |s| == 0 then []
    else
      var d := Dedup(s[..|s| - 1]);
      assert s == s[..|s| - 1] + [s[|s| - 1]];
      if s[|s| - 1] in d then d else d + [s[|s| - 1]]
  }

  /** `a` can be obtained from `b` by deleting elements (an order-preserving sublist). */
  ghost predicate IsSubsequence<T>(a: seq<T>, b: seq<T>)
    decreases |b|
  {
    |a| == 0 ||
    (|b| > 0 &&
     ((a[|a| - 1] == b[|b| - 1] && IsSubsequence(a[..|a| - 1], b[..|b| - 1])) ||
      IsSubsequence(a, b[..|b| - 1])))
  }

  /** The conjunction of two predicates, as one predicate value. */
  function Both<T>(p: T -> bool, q: T -> bool): T -> bool {
    x => p(x) && q(x)
  }

  lemma AppendAssoc<T>(a: seq<T>, b: seq<T>, c: seq<T>)
    ensures a + (b + c) == (a + b) + c
  {
  }

  lemma {:induction false} FilterAppend<T>(a: seq<T>, b: seq<T>, p: T -> bool)
    ensures Filter(a + b, p) == Filter(a, p) + Filter(b, p)
    decreases |b|
  {
    if |b| == 0 {
      assert a + b == a;
    } else {
      FilterAppend(a, b[..|b| - 1], p);
      assert (a + b)[..|a + b| - 1] == a + b[..|b| - 1];
    }
  }

  /** Filtering twice is filtering once by the conjunction (filter fusion). */
  lemma {:induction false} FilterFilter<T>(s: seq<T>, p: T -> bool, q: T -> bool)
    ensures Filter(Filter(s, p), q) == Filter(s, Both(p, q))
  {
    if |s| > 0 {
      var s' := s[..|s| - 1];
      var x := s[|s| - 1];
      FilterFilter(s', p, q);
      FilterAppend(Filter(s', p), if p(x) then [x] else [], q);
      assert Filter(s, p) == Filter(s', p) + (if p(x) then [x] else []);
      if p(x) {
        assert [x][..0] == [];
        assert Filter([x], q) == (if q(x) then [x] else []);
      }
    }
  }

  /** Filtering with a predicate that every element satisfies changes nothing. */
  lemma {:induction false} FilterAll<T>(s: seq<T>, p: T -> bool)
    requires forall i :: 0 <= i < |s| ==> p(s[i])
    ensures Filter(s, p) == s
  {
    if |s| > 0 {
      FilterAll(s[..|s| - 1], p);
      assert s == s[..|s| - 1] + [s[|s| - 1]];
    }
  }

  lemma {:induction false} SubsequenceRefl<T>(s: seq<T>)
    ensures IsSubsequence(s, s)
  {
    if |s| > 0 {
      SubsequenceRefl(s[..|s| - 1]);
    }
  }

  /**
   * A stricter filter keeps an order-preserving sublist of what a looser one
   * keeps: the monotonic narrowing of every filter in the model.
   */
  lemma {:induction false} FilterMonotone<T>(s: seq<T>, p: T -> bool, q: T -> bool)
    requires forall i :: 0 <= i < |s| && p(s[i]) ==> q(s[i])
    ensures IsSubsequence(Filter(s, p), Filter(s, q))
  {
    if |s| > 0 {
      var s' := s[..|s| - 1];
      var x := s[|s| - 1];
      FilterMonotone(s', p, q);
      var a := Filter(s', p);
      var b := Filter(s', q);
      if p(x) {
        assert Filter(s, p) == a + [x];
        assert Filter(s, q) == b + [x];
        assert (a + [x])[..|a|] == a;
        assert (b + [x])[..|b|] == b;
      } else if q(x) {
        assert Filter(s, p) == a;
        assert Filter(s, q) == b + [x];
        assert (b + [x])[..|b|] == b;
      } else {
        assert Filter(s, p) == a && Filter(s, q) == b;
      }
    }
  }

  /** A filter keeps an order-preserving sublist of its input. */
  lemma FilterIsSubsequence<T>(s: seq<T>, p: T -> bool)
    ensures IsSubsequence(Filter(s, p), s)
  {
    FilterMonotone(s, p, x => true);
    FilterAll(s, x => true);
  }

  lemma {:induction false} SumOfAppend<T>(a: seq<T>, b: seq<T>, v: T -> real)
    ensures SumOf(a + b, v) == SumOf(a, v) + SumOf(b, v)
    decreases |b|
  {
    if |b| == 0 {
      assert a + b == a;
    } else {
      SumOfAppend(a, b[..|b| - 1], v);
      assert (a + b)[..|a + b| - 1] == a + b[..|b| - 1];
    }
  }

  lemma {:induction false} SumWhereAppend<T>(a: seq<T>, b: seq<T>, p: T -> bool, v: T -> real)
    ensures SumWhere(a + b, p, v) == SumWhere(a, p, v) + SumWhere(b, p, v)
    decreases |b|
  {
    if |b| == 0 {
      assert a + b == a;
    } else {
      SumWhereAppend(a, b[..|b| - 1], p, v);
      assert (a + b)[..|a + b| - 1] == a + b[..|b| - 1];
    }
  }

  /** A masked sum is the plain sum over the filtered sequence. */
  lemma {:induction false} SumWhereIsSumOfFilter<T>(s: seq<T>, p: T -> bool, v: T -> real)
    ensures SumWhere(s, p, v) == SumOf(Filter(s, p), v)
  {
    if |s| > 0 {
      var s' := s[..|s| - 1];
      var x := s[|s| - 1];
      SumWhereIsSumOfFilter(s', p, v);
      SumOfAppend(Filter(s', p), if p(x) then [x] else [], v);
      if p(x) {
        assert [x][..0] == [];
      }
    }
  }

  /** Masked sums split over a partition of the mask. */
  lemma {:induction false} SumWhereSplit<T>(s: seq<T>, p: T -> bool, q: T -> bool, pq: T -> bool, v: T -> real)
    requires forall x :: p(x) <==> (pq(x) || q(x))
    requires forall x :: !(pq(x) && q(x))
    ensures SumWhere(s, p, v) == SumWhere(s, pq, v) + SumWhere(s, q, v)
  {
    if |s| > 0 {
      SumWhereSplit(s[..|s| - 1], p, q, pq, v);
    }
  }

  lemma {:induction false} SumWhereNonNegative<T>(s: seq<T>, p: T -> bool, v: T -> real)
    requires forall i :: 0 <= i < |s| ==> v(s[i]) >= 0.0
    ensures SumWhere(s, p, v) >= 0.0
  {
    if |s| > 0 {
      SumWhereNonNegative(s[..|s| - 1], p, v);
    }
  }

  lemma {:induction false} FirstIndexOfPrefix<T>(s: seq<T>, y: T, x: T)
    requires x in s
    ensures x in s + [y] && FirstIndex(s + [y], x) == FirstIndex(s, x)
  {
    assert (s + [y])[..|s|] == s;
  }

  /**
   * De-duplication lists values in the order of their first appearance:
   * an earlier entry of `Dedup(s)` first occurs earlier in `s`.
   */
  lemma {:induction false} DedupFirstAppearance<T>(s: seq<T>, i: int, j: int)
    requires 0 <= i < j < |Dedup(s)|
    ensures Dedup(s)[i] in s && Dedup(s)[j] in s
    ensures FirstIndex(s, Dedup(s)[i]) < FirstIndex(s, Dedup(s)[j])
  {
    var s' := s[..|s| - 1];
    var y := s[|s| - 1];
    var d := Dedup(s');
    assert s == s' + [y];
    if j < |d| {
      DedupFirstAppearance(s', i, j);
      FirstIndexOfPrefix(s', y, d[i]);
      FirstIndexOfPrefix(s', y, d[j]);
    } else {
      assert y !in s';
      assert Dedup(s)[j] == y;
      FirstIndexOfPrefix(s', y, d[i]);
      assert FirstIndex(s, y) == |s| - 1;
    }
  }

  /** Filtering depends only on which elements the predicate keeps. */
  lemma {:induction false} FilterCongruent<T>(s: seq<T>, p: T -> bool, q: T -> bool)
    requires forall i :: 0 <= i < |s| ==> p(s[i]) == q(s[i])
    ensures Filter(s, p) == Filter(s, q)
  {
    if |s| > 0 {
      FilterCongruent(s[..|s| - 1], p, q);
    }
  }

  /** A sum depends only on the values summed at each element. */
  lemma {:induction false} SumOfCongruent<T>(s: seq<T>, v: T -> real, w: T -> real)
    requires forall i :: 0 <= i < |s| ==> v(s[i]) == w(s[i])
    ensures SumOf(s, v) == SumOf(s, w)
  {
    if |s| > 0 {
      SumOfCongruent(s[..|s| - 1], v, w);
    }
  }

  /** Taking one element out of a sequence takes its value out of the sum and its occurrence out of the multiset. */
  lemma {:induction false} SumOfRemove<T>(b: seq<T>, j: int, v: T -> real)
    requires 0 <= j < |b|
    ensures multiset(b[..j] + b[j + 1..]) == multiset(b) - multiset{b[j]}
    ensures SumOf(b, v) == SumOf(b[..j] + b[j + 1..], v) + v(b[j])
  {
    var x := b[j];
    assert b == b[..j] + [x] + b[j + 1..];
    SumOfAppend(b[..j] + [x], b[j + 1..], v);
    SumOfAppend(b[..j], [x], v);
    SumOfAppend(b[..j], b[j + 1..], v);
    assert SumOf([x], v) == SumOf([], v) + v(x);
  }

  /** A sum does not depend on the order of the elements summed. */
  lemma {:induction false} SumOfPermutation<T>(a: seq<T>, b: seq<T>, v: T -> real)
    requires multiset(a) == multiset(b)
    ensures SumOf(a, v) == SumOf(b, v)
    decreases |a|
  {
    if |a| == 0 {
      assert |b| == |multiset(b)| == 0;
    } else {
      var a' := a[..|a| - 1];
      var x := a[|a| - 1];
      assert a == a' + [x];
      assert x in multiset(b);
      var j := FirstIndex(b, x);
      SumOfRemove(b, j, v);
      assert multiset(a') == multiset(a) - multiset{x};
      SumOfPermutation(a', b[..j] + b[j + 1..], v);
      SumOfAppend(a', [x], v);
      assert SumOf([x], v) == SumOf([], v) + v(x);
    }
  }

  /** In a sequence without repetitions, equal entries sit at the same position. */
  lemma DistinctPositions<T>(s: seq<T>, i: int, j: int)
    requires Distinct(s)
    requires 0 <= i < |s| && 0 <= j < |s| && s[i] == s[j]
    ensures i == j
  {
  }

  /** Filtering with a predicate no element satisfies leaves nothing. */
  lemma {:induction false} FilterNone<T>(s: seq<T>, p: T -> bool)
    requires forall i :: 0 <= i < |s| ==> !p(s[i])
    ensures Filter(s, p) == []
  {
    if |s| > 0 {
      FilterNone(s[..|s| - 1], p);
    }
  }

  /** In a sequence without repetitions every value occurs at most once. */
  lemma {:induction false} DistinctCount<T>(s: seq<T>, x: T)
    requires Distinct(s)
    ensures multiset(s)[x] <= 1
  {
    if |s| > 0 {
      var s' := s[..|s| - 1];
      assert s == s' + [s[|s| - 1]];
      assert Distinct(s');
      DistinctCount(s', x);
      if s[|s| - 1] == x {
        forall k | 0 <= k < |s'|
          ensures s'[k] != x
        {
          assert s'[k] == s[k];
        }
      }
    }
  }

  /** A value at two positions occurs at least twice. */
  lemma TwiceCounted<T>(b: seq<T>, i: int, j: int)
    requires 0 <= i < j < |b|
    ensures b[i] == b[j] ==> multiset(b)[b[i]] >= 2
  {
    assert b == b[..j] + b[j..];
    assert b[i] in b[..j] && b[j] in b[j..];
  }

  /** A reordering of a sequence without repetitions has none either. */
  lemma DistinctOfPermutation<T>(a: seq<T>, b: seq<T>)
    requires Distinct(a) && multiset(a) == multiset(b)
    ensures Distinct(b)
  {
    forall i, j | 0 <= i < j < |b|
      ensures b[i] != b[j]
    {
      DistinctCount(a, b[i]);
      TwiceCounted(b, i, j);
    }
  }
}
