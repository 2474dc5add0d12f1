/**
 * The accumulator pattern the charts use: a `forEach` over the records adds
 * each included record's amount under its key, `totals[key] = (totals[key] || 0) + amount`.
 * The object is a table of (key, running total) pairs in key-creation order.
 */
module Grouping {
  import opened Seqs

  type Table = seq<(string, real)>

  /** The keys of `t`, in creation order. */
  function Keys(t: Table): (r: seq<string>)
    ensures |r| == |t|
    ensures forall i :: 0 <= i < |t| ==> r[i] == t[i].0
  {
    if |t| == 0 then [] else Keys(t[..|t| - 1]) + [t[|t| - 1].0]
  }

  /** `totals[k] || 0`: the total stored under `k`, or 0 when `k` is absent. */
  function Get(t: Table, k: string): real {
    if k in Keys(t) then t[FirstIndex(Keys(t), k)].1 else 0.0
  }

  /** The sum of all totals in `t`. */
  function Total(t: Table): real {
    if |t| == 0 then 0.0 else Total(t[..|t| - 1]) + t[|t| - 1].1
  }

  /** `totals[k] = (totals[k] || 0) + v`. */
  function Accumulate(t: Table, k: string, v: real): (r: Table)
    ensures Keys(r) == if k in Keys(t) then Keys(t) else Keys(t) + [k]
    ensures Get(r, k) == Get(t, k) + v
    ensures forall k' :: k' != k ==> Get(r, k') == Get(t, k')
    ensures Total(r) == Total(t) + v
  {
    if k in Keys(t) then
      var i := FirstIndex(Keys(t), k);
      var r := t[i := (k, t[i].1 + v)];
      assert Keys(r) == Keys(t);
      TotalOfUpdate(t, i, k, t[i].1 + v);
      r
    else
      var r := t + [(k, v)];
      assert r[..|t|] == t;
      forall k' | k' != k && k' in Keys(t)
        ensures Get(r, k') == Get(t, k')
      {
        FirstIndexOfPrefix(Keys(t), k, k');
      }
      r
  }

  lemma {:induction false} TotalOfUpdate(t: Table, i: int, k: string, x: real)
    requires 0 <= i < |t|
    ensures Total(t[i := (k, x)]) == Total(t) - t[i].1 + x
  {
    var u := t[i := (k, x)];
    if i < |t| - 1 {
      assert u[..|u| - 1] == t[..|t| - 1][i := (k, x)];
      TotalOfUpdate(t[..|t| - 1], i, k, x);
    } else {
      assert u[..|u| - 1] == t[..|t| - 1];
    }
  }

  /** The records of `s` that `counted` keeps and whose key is `k`. */
  function KeyIs<T>(counted: T -> bool, key: T -> string, k: string): T -> bool {
    x => counted(x) && key(x) == k
  }

  /** The accumulator after a `forEach` over `s`. */
  function Group<T>(s: seq<T>, counted: T -> bool, key: T -> string, amount: T -> real): (t: Table)
  {
    if |s| == 0 then []
    else
      var t := Group(s[..|s| - 1], counted, key, amount);
      var x := s[|s| - 1];
      if counted(x) then Accumulate(t, key(x), amount(x)) else t
  }

  /** The keys appear in the order of their first included record. */
  lemma {:induction false} GroupKeys<T>(s: seq<T>, counted: T -> bool, key: T -> string, amount: T -> real)
    ensures Keys(Group(s, counted, key, amount)) == Dedup(Map(Filter(s, counted), key))
  {
    if |s| > 0 {
      var s' := s[..|s| - 1];
      var x := s[|s| - 1];
      GroupKeys(s', counted, key, amount);
      var m := Map(Filter(s', counted), key);
      if counted(x) {
        assert Map(Filter(s, counted), key) == m + [key(x)];
        assert (m + [key(x)])[..|m|] == m;
      } else {
        assert Map(Filter(s, counted), key) == m;
      }
    }
  }

  /** Each key's total is the sum of the amounts of the included records with that key. */
  lemma {:induction false} GroupGet<T>(s: seq<T>, counted: T -> bool, key: T -> string, amount: T -> real, k: string)
    ensures Get(Group(s, counted, key, amount), k) == SumWhere(s, KeyIs(counted, key, k), amount)
  {
    if |s| > 0 {
      GroupGet(s[..|s| - 1], counted, key, amount, k);
    }
  }

  /** The totals add up to the sum of all included amounts. */
  lemma {:induction false} GroupTotal<T>(s: seq<T>, counted: T -> bool, key: T -> string, amount: T -> real)
    ensures Total(Group(s, counted, key, amount)) == SumWhere(s, counted, amount)
  {
    if |s| > 0 {
      GroupTotal(s[..|s| - 1], counted, key, amount);
    }
  }

  lemma {:induction false} GroupKeysDistinct<T>(s: seq<T>, counted: T -> bool, key: T -> string, amount: T -> real)
    ensures Distinct(Keys(Group(s, counted, key, amount)))
  {
    GroupKeys(s, counted, key, amount);
  }

  lemma KeysOfPrefix(t: Table)
    requires |t| > 0
    ensures Keys(t[..|t| - 1]) == Keys(t)[..|t| - 1]
  {
  }

  /** Keys already present before the last entry read the same total as before it. */
  lemma {:induction false} GetOfEarlierKey(t: Table, k: string)
    requires |t| > 0 && k in Keys(t[..|t| - 1])
    ensures Get(t, k) == Get(t[..|t| - 1], k)
  {
    KeysOfPrefix(t);
    assert Keys(t) == Keys(t[..|t| - 1]) + [t[|t| - 1].0];
    FirstIndexOfPrefix(Keys(t[..|t| - 1]), t[|t| - 1].0, k);
  }

  /** The last key of a table with distinct keys reads the last total. */
  lemma {:induction false} GetOfLastKey(t: Table)
    requires |t| > 0 && Distinct(Keys(t))
    ensures Get(t, t[|t| - 1].0) == t[|t| - 1].1
  {
    var ks := Keys(t);
    var x := t[|t| - 1].0;
    var j := FirstIndex(ks, x);
    assert ks[|t| - 1] == x;
    DistinctPositions(ks, j, |t| - 1);
  }

  /** Reading every key of a table with distinct keys reads each stored total once. */
  lemma {:induction false} SumOfGets(t: Table)
    requires Distinct(Keys(t))
    ensures SumOf(Keys(t), k => Get(t, k)) == Total(t)
  {
    if |t| > 0 {
      var t' := t[..|t| - 1];
      var ks := Keys(t);
      KeysOfPrefix(t);
      SumOfGets(t');
      forall i | 0 <= i < |t'|
        ensures Get(t, Keys(t')[i]) == Get(t', Keys(t')[i])
      {
        GetOfEarlierKey(t, Keys(t')[i]);
      }
      SumOfCongruent(Keys(t'), k => Get(t, k), k => Get(t', k));
      GetOfLastKey(t);
    }
  }

  /** Reading the keys in any order that lists each exactly once gives the same sum. */
  lemma SumOverKeyOrder(t: Table, order: seq<string>)
    requires Distinct(Keys(t))
    requires multiset(order) == multiset(Keys(t))
    ensures SumOf(order, k => Get(t, k)) == Total(t)
  {
    SumOfPermutation(order, Keys(t), k => Get(t, k));
    SumOfGets(t);
  }
}
