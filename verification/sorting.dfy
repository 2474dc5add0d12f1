/**
 * `Array.prototype.sort(comparefn)` with a consistent comparator. ECMA-262
 * requires the sort to be stable, which together with a consistent comparator
 * determines its result: the unique ordering that is sorted and keeps equivalent
 * elements in their original relative order. The model computes it by insertion.
 */
module Sorting {
  import opened Seqs

  /**
   * `le(a, b)` holds when the comparator does not put `b` strictly before `a`
   * (`comparefn(a, b) <= 0`); a consistent comparator makes it a total preorder.
   */
  ghost predicate TotalPreorder<T(!new)>(le: (T, T) -> bool) {
    && (forall a, b :: le(a, b) || le(b, a))
    && (forall a, b, c :: le(a, b) && le(b, c) ==> le(a, c))
  }

  ghost predicate SortedBy<T>(s: seq<T>, le: (T, T) -> bool) {
    forall i, j :: 0 <= i < j < |s| ==> le(s[i], s[j])
  }

  /** The elements the comparator cannot tell apart from `c`. */
  function EquivalentTo<T>(le: (T, T) -> bool, c: T): T -> bool {
    y => le(y, c) && le(c, y)
  }

  /** Puts `x` into the sorted `r` after every element that is not greater than `x`. */
  function Insert<T>(x: T, r: seq<T>, le: (T, T) -> bool): seq<T> {
    if |r| == 0 then [x]
    else if le(r[0], x) then [r[0]] + Insert(x, r[1..], le)
    else [x] + r
  }

  lemma {:induction false} InsertMultiset<T>(x: T, r: seq<T>, le: (T, T) -> bool)
    ensures multiset(Insert(x, r, le)) == multiset(r) + multiset{x}
  {
    if |r| > 0 && le(r[0], x) {
      InsertMultiset(x, r[1..], le);
      assert r == [r[0]] + r[1..];
    }
  }

  lemma {:induction false} InsertSorted<T(!new)>(x: T, r: seq<T>, le: (T, T) -> bool)
    requires TotalPreorder(le)
    requires SortedBy(r, le)
    ensures SortedBy(Insert(x, r, le), le)
  {
    if |r| > 0 {
      if le(r[0], x) {
        SortedTail(r, le);
        InsertSorted(x, r[1..], le);
        forall i | 0 <= i < |r[1..]|
          ensures le(r[0], r[1..][i])
        {
          assert r[1..][i] == r[i + 1];
        }
        InsertKeepsLowerBound(x, r[1..], le, r[0]);
        SortedCons(r[0], Insert(x, r[1..], le), le);
      } else {
        assert le(x, r[0]);
        forall k | 0 <= k < |r|
          ensures le(x, r[k])
        {
          if k > 0 {
            assert le(r[0], r[k]);
          }
        }
        SortedCons(x, r, le);
      }
    }
  }

  /** A lower bound of `x` and of every element of `r` bounds every element of `Insert(x, r, le)`. */
  lemma {:induction false} InsertKeepsLowerBound<T>(x: T, r: seq<T>, le: (T, T) -> bool, b: T)
    requires le(b, x)
    requires forall i :: 0 <= i < |r| ==> le(b, r[i])
    ensures forall i :: 0 <= i < |Insert(x, r, le)| ==> le(b, Insert(x, r, le)[i])
  {
    if |r| > 0 && le(r[0], x) {
      var rest := r[1..];
      forall i | 0 <= i < |rest|
        ensures le(b, rest[i])
      {
        assert rest[i] == r[i + 1];
      }
      InsertKeepsLowerBound(x, rest, le, b);
      var s := Insert(x, rest, le);
      assert Insert(x, r, le) == [r[0]] + s;
      forall i | 0 <= i < |[r[0]] + s|
        ensures le(b, ([r[0]] + s)[i])
      {
        if i > 0 {
          assert ([r[0]] + s)[i] == s[i - 1];
        }
      }
    }
  }

  /** A sorted sequence stays sorted with a lower bound of all its elements in front. */
  lemma SortedCons<T>(a: T, s: seq<T>, le: (T, T) -> bool)
    requires SortedBy(s, le)
    requires forall i :: 0 <= i < |s| ==> le(a, s[i])
    ensures SortedBy([a] + s, le)
  {
    var t := [a] + s;
    forall i, j | 0 <= i < j < |t|
      ensures le(t[i], t[j])
    {
      assert t[j] == s[j - 1];
      if i > 0 {
        assert t[i] == s[i - 1];
      }
    }
  }

  /** When `x` goes in front of the sorted `r`, nothing in `r` is equivalent to `x`. */
  lemma InsertInFrontStable<T(!new)>(x: T, r: seq<T>, le: (T, T) -> bool, c: T)
    requires TotalPreorder(le)
    requires SortedBy(r, le)
    requires |r| > 0 && !le(r[0], x)
    ensures Filter([x] + r, EquivalentTo(le, c)) == Filter(r, EquivalentTo(le, c)) + Filter([x], EquivalentTo(le, c))
  {
    var p := EquivalentTo(le, c);
    FilterAppend([x], r, p);
    assert [x][..0] == [];
    if p(x) {
      forall i | 0 <= i < |r|
        ensures !le(r[i], x)
      {
        if i > 0 {
          assert le(r[0], r[i]);
        }
      }
      FilterNone(r, p);
    } else {
      assert Filter([x], p) == [];
    }
  }

  lemma {:induction false} InsertStable<T(!new)>(x: T, r: seq<T>, le: (T, T) -> bool, c: T)
    requires TotalPreorder(le)
    requires SortedBy(r, le)
    ensures Filter(Insert(x, r, le), EquivalentTo(le, c)) == Filter(r, EquivalentTo(le, c)) + Filter([x], EquivalentTo(le, c))
  {
    var p := EquivalentTo(le, c);
    if |r| == 0 {
      assert Filter([x], p) == Filter([], p) + Filter([x], p);
    } else if le(r[0], x) {
      SortedTail(r, le);
      InsertStable(x, r[1..], le, c);
      InsertBehindStable(x, r, le, p);
    } else {
      InsertInFrontStable(x, r, le, c);
    }
  }

  lemma SortedTail<T>(r: seq<T>, le: (T, T) -> bool)
    requires |r| > 0 && SortedBy(r, le)
    ensures SortedBy(r[1..], le)
  {
    forall i, j | 0 <= i < j < |r| - 1
      ensures le(r[1..][i], r[1..][j])
    {
      assert r[1..][i] == r[i + 1] && r[1..][j] == r[j + 1];
    }
  }

  /** When `x` goes behind `r[0]`, the filter of `r[0]` stays in front of the rest. */
  lemma InsertBehindStable<T>(x: T, r: seq<T>, le: (T, T) -> bool, p: T -> bool)
    requires |r| > 0 && le(r[0], x)
    requires Filter(Insert(x, r[1..], le), p) == Filter(r[1..], p) + Filter([x], p)
    ensures Filter(Insert(x, r, le), p) == Filter(r, p) + Filter([x], p)
  {
    FilterOfInsertBehind(x, r, le, p);
    FilterOfFront(r, p);
    AppendAssoc(Filter([r[0]], p), Filter(r[1..], p), Filter([x], p));
  }

  lemma FilterOfInsertBehind<T>(x: T, r: seq<T>, le: (T, T) -> bool, p: T -> bool)
    requires |r| > 0 && le(r[0], x)
    ensures Filter(Insert(x, r, le), p) == Filter([r[0]], p) + Filter(Insert(x, r[1..], le), p)
  {
    assert Insert(x, r, le) == [r[0]] + Insert(x, r[1..], le);
    FilterAppend([r[0]], Insert(x, r[1..], le), p);
  }

  lemma FilterOfFront<T>(r: seq<T>, p: T -> bool)
    requires |r| > 0
    ensures Filter(r, p) == Filter([r[0]], p) + Filter(r[1..], p)
  {
    var head := [r[0]];
    assert r == head + r[1..];
    FilterAppend(head, r[1..], p);
  }

  /** The stable sort of `s` under `le`. */
  function Sort<T(!new)>(s: seq<T>, le: (T, T) -> bool): (r: seq<T>)
    requires TotalPreorder(le)
    ensures multiset(r) == multiset(s)
    ensures SortedBy(r, le)
  {
    if |s| == 0 then []
    else
      var r' := Sort(s[..|s| - 1], le);
      InsertSorted(s[|s| - 1], r', le);
      InsertMultiset(s[|s| - 1], r', le);
      assert s == s[..|s| - 1] + [s[|s| - 1]];
      Insert(s[|s| - 1], r', le)
  }

  /**
   * Stability: the elements equivalent to any `c` appear in the sorted result in
   * the same relative order as in the input.
   */
  lemma {:induction false} SortStable<T(!new)>(s: seq<T>, le: (T, T) -> bool, c: T)
    requires TotalPreorder(le)
    ensures Filter(Sort(s, le), EquivalentTo(le, c)) == Filter(s, EquivalentTo(le, c))
  {
    if |s| > 0 {
      var s' := s[..|s| - 1];
      SortStable(s', le, c);
      InsertStable(s[|s| - 1], Sort(s', le), le, c);
      FilterAppend(s', [s[|s| - 1]], EquivalentTo(le, c));
      assert s == s' + [s[|s| - 1]];
    }
  }

  /** A sequence whose elements the comparator cannot tell apart is left as it is. */
  lemma SortOfEquivalent<T(!new)>(s: seq<T>, le: (T, T) -> bool)
    requires TotalPreorder(le)
    requires forall i, j :: 0 <= i < |s| && 0 <= j < |s| ==> le(s[i], s[j])
    ensures Sort(s, le) == s
  {
    if |s| > 0 {
      var p := EquivalentTo(le, s[0]);
      var r := Sort(s, le);
      SortStable(s, le, s[0]);
      FilterAll(s, p);
      forall i | 0 <= i < |r|
        ensures p(r[i])
      {
        assert r[i] in multiset(s);
      }
      FilterAll(r, p);
    }
  }
}
