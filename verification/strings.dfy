/**
 * Strings as sequences of Unicode code points, with the few `String.prototype`
 * operations the app relies on: `toLowerCase`, `includes`, `indexOf`,
 * `lastIndexOf`, `replace` of one character, `split` on one character and
 * `Array.prototype.join`.
 */
module Strings {
  import opened Seqs

  predicate IsDigit(c: char) {
    '0' <= c <= '9'
  }

  predicate AllDigits(s: string) {
    forall i :: 0 <= i < |s| ==> IsDigit(s[i])
  }

  function DigitValue(c: char): nat
    requires IsDigit(c)
  {
    c as int - '0' as int
  }

  function Pow10(n: nat): (r: nat)
    ensures r >= 1
  {
    if n == 0 then 1 else 10 * Pow10(n - 1)
  }

  /** The natural number a string of decimal digits denotes ("" denotes 0). */
  function DigitsValue(ds: string): nat
    requires AllDigits(ds)
  {
    if |ds| == 0 then 0 else 10 * DigitsValue(ds[..|ds| - 1]) + DigitValue(ds[|ds| - 1])
  }

  /** The shortest decimal numeral of `n`, as `Number.prototype.toString` writes a natural number. */
  function NatToString(n: nat): (r: string)
    ensures |r| > 0 && AllDigits(r)
  {
    if n < 10 then [('0' as int + n) as char]
    else NatToString(n / 10) + [('0' as int + n % 10) as char]
  }

  /** `'' + n` for an integer `n`: a minus sign for negative values, then the numeral. */
  function IntToString(n: int): string {
    if n < 0 then "-" + NatToString(-n) else NatToString(n)
  }

  /**
   * `String.prototype.toLowerCase` on one code point, for the Latin letters the
   * app's keywords and categories are written in: ASCII, Latin-1 and the
   * Vietnamese letters of Latin Extended-A/B and Latin Extended Additional.
   */
  function LowerChar(c: char): char {
    if 'A' <= c <= 'Z' || ('À' <= c <= 'Þ' && c != '×') then (c as int + 32) as char
    else if c == 'Ă' || c == 'Đ' || c == 'Ĩ' || c == 'Ũ' || c == 'Ơ' then (c as int + 1) as char
    else if 'Ạ' <= c <= 'Ỹ' && c as int % 2 == 0 then (c as int + 1) as char
    else if c == 'Ư' then 'ư'
    else c
  }

  function ToLower(s: string): (r: string)
    ensures |r| == |s|
  {
    Map(s, LowerChar)
  }

  /** Lower-casing is idempotent: a lower-cased string is its own lower case. */
  lemma ToLowerIdempotent(s: string)
    ensures ToLower(ToLower(s)) == ToLower(s)
  {
    assert forall i :: 0 <= i < |s| ==> LowerChar(LowerChar(s[i])) == LowerChar(s[i]);
  }

  lemma ToLowerAppend(a: string, b: string)
    ensures ToLower(a + b) == ToLower(a) + ToLower(b)
  {
  }

  predicate StartsWith(s: string, prefix: string) {
    |prefix| <= |s| && s[..|prefix|] == prefix
  }

  /** `s.includes(sub)`, scanning `s` from its first position. */
  predicate Contains(s: string, sub: string)
    decreases |s|
  {
    StartsWith(s, sub) || (|s| > 0 && Contains(s[1..], sub))
  }

  /** `sub` occurs in `s` starting at position `i`. */
  ghost predicate OccursAt(s: string, sub: string, i: int) {
    0 <= i && i + |sub| <= |s| && s[i..i + |sub|] == sub
  }

  lemma {:induction false} ContainsWitness(s: string, sub: string) returns (i: nat)
    requires Contains(s, sub)
    ensures OccursAt(s, sub, i)
    decreases |s|
  {
    if StartsWith(s, sub) {
      i := 0;
    } else {
      var j := ContainsWitness(s[1..], sub);
      assert s[1..][j..j + |sub|] == s[j + 1..j + 1 + |sub|];
      i := j + 1;
    }
  }

  lemma {:induction false} OccurrenceContains(s: string, sub: string, i: nat)
    requires OccursAt(s, sub, i)
    ensures Contains(s, sub)
    decreases i
  {
    if i == 0 {
      assert s[..|sub|] == s[0..|sub|];
    } else {
      assert s[1..][i - 1..i - 1 + |sub|] == s[i..i + |sub|];
      OccurrenceContains(s[1..], sub, i - 1);
    }
  }

  /** The scanning `Contains` holds exactly when `sub` occurs somewhere in `s`. */
  lemma ContainsIff(s: string, sub: string)
    ensures Contains(s, sub) <==> exists i :: OccursAt(s, sub, i)
  {
    if Contains(s, sub) {
      var i := ContainsWitness(s, sub);
    }
    if exists i :: OccursAt(s, sub, i) {
      var i :| OccursAt(s, sub, i);
      OccurrenceContains(s, sub, i);
    }
  }

  /** Substring containment is transitive. */
  lemma ContainsTransitive(a: string, b: string, c: string)
    requires Contains(a, b) && Contains(b, c)
    ensures Contains(a, c)
  {
    var i := ContainsWitness(a, b);
    var j := ContainsWitness(b, c);
    forall k | 0 <= k < |c|
      ensures a[i + j + k] == c[k]
    {
      assert a[i + j + k] == a[i..i + |b|][j + k] == b[j..j + |c|][k];
    }
    assert a[i + j..i + j + |c|] == c;
    OccurrenceContains(a, c, i + j);
  }

  /** A substring of `x` is a substring of any text that embeds `x`. */
  lemma ContainsInContext(p: string, x: string, q: string, sub: string)
    requires Contains(x, sub)
    ensures Contains(p + x + q, sub)
  {
    var i := ContainsWitness(x, sub);
    assert (p + x + q)[|p| + i..|p| + i + |sub|] == x[i..i + |sub|];
    OccurrenceContains(p + x + q, sub, |p| + i);
  }

  /** `s.indexOf(c)`: the first position of `c`, or -1. */
  function IndexOf(s: string, c: char): (r: int)
    ensures -1 <= r < |s|
    ensures r < 0 <==> c !in s
    ensures r >= 0 ==> s[r] == c && c !in s[..r]
  {
    if c in s then FirstIndex(s, c) else -1
  }

  /** A position holding `c` with no `c` before it is what `indexOf` finds. */
  lemma IndexOfAt(s: string, c: char, k: int)
    requires 0 <= k < |s| && s[k] == c && c !in s[..k]
    ensures IndexOf(s, c) == k
  {
    var r := IndexOf(s, c);
    assert forall j :: 0 <= j < k ==> s[..k][j] == s[j];
    assert forall j :: 0 <= j < r ==> s[..r][j] == s[j];
  }

  /** `s.lastIndexOf(c)`: the last position of `c`, or -1. */
  function LastIndexOf(s: string, c: char): (r: int)
    ensures -1 <= r < |s|
    ensures r < 0 <==> c !in s
    ensures r >= 0 ==> s[r] == c && c !in s[r + 1..]
  {
    if |s| == 0 then -1
    else if s[|s| - 1] == c then |s| - 1
    else
      assert s == s[..|s| - 1] + [s[|s| - 1]];
      LastIndexOf(s[..|s| - 1], c)
  }

  /** A position holding `c` with no `c` after it is what `lastIndexOf` finds. */
  lemma LastIndexOfAt(s: string, c: char, k: int)
    requires 0 <= k < |s| && s[k] == c && c !in s[k + 1..]
    ensures LastIndexOf(s, c) == k
  {
    var r := LastIndexOf(s, c);
    assert forall j :: k < j < |s| ==> s[k + 1..][j - k - 1] == s[j];
    assert forall j :: r < j < |s| ==> s[r + 1..][j - r - 1] == s[j];
  }

  /** `s.replace(/c/g, '')`: every occurrence of `c` deleted. */
  function RemoveAll(s: string, c: char): (r: string)
    ensures c !in r
  {
    if |s| == 0 then []
    else RemoveAll(s[..|s| - 1], c) + (if s[|s| - 1] == c then [] else [s[|s| - 1]])
  }

  /** `s.replace(c, d)` with a one-character string pattern: only the first occurrence is replaced. */
  function ReplaceFirst(s: string, c: char, d: char): string {
    var k := IndexOf(s, c);
    if k < 0 then s else s[..k] + [d] + s[k + 1..]
  }

  /** Replacing a character by itself changes nothing. */
  lemma ReplaceFirstSelf(s: string, c: char)
    ensures ReplaceFirst(s, c, c) == s
  {
    var k := IndexOf(s, c);
    if k >= 0 {
      assert s == s[..k] + [c] + s[k + 1..];
    }
  }

  /** `parts.join(sep)`. */
  function Join(parts: seq<string>, sep: string): string {
    if |parts| == 0 then ""
    else if |parts| == 1 then parts[0]
    else Join(parts[..|parts| - 1], sep) + sep + parts[|parts| - 1]
  }

  /** `parts.join('')`. */
  function Concat(parts: seq<string>): string {
    if |parts| == 0 then "" else Concat(parts[..|parts| - 1]) + parts[|parts| - 1]
  }

  /** `s.split(c)` for a one-character separator: the pieces between occurrences of `c`. */
  function Split(s: string, c: char): (r: seq<string>)
    ensures |r| > 0
    decreases |s|
  {
    var k := LastIndexOf(s, c);
    if k < 0 then [s] else Split(s[..k], c) + [s[k + 1..]]
  }

  /** How many times `c` occurs in `s`. */
  function Count(s: string, c: char): nat {
    if |s| == 0 then 0 else Count(s[..|s| - 1], c) + (if s[|s| - 1] == c then 1 else 0)
  }

  lemma {:induction false} RemoveAllAppend(a: string, b: string, c: char)
    ensures RemoveAll(a + b, c) == RemoveAll(a, c) + RemoveAll(b, c)
    decreases |b|
  {
    if |b| == 0 {
      assert a + b == a;
    } else {
      var init, x := b[..|b| - 1], b[|b| - 1];
      var tail := if x == c then [] else [x];
      RemoveAllAppend(a, init, c);
      assert (a + b)[..|a + b| - 1] == a + init;
      calc {
        RemoveAll(a + b, c);
        RemoveAll(a + init, c) + tail;
        RemoveAll(a, c) + RemoveAll(init, c) + tail;
        { AppendAssoc(RemoveAll(a, c), RemoveAll(init, c), tail); }
        RemoveAll(a, c) + RemoveAll(b, c);
      }
    }
  }

  lemma {:induction false} RemoveAllAbsent(s: string, c: char)
    requires c !in s
    ensures RemoveAll(s, c) == s
  {
    if |s| > 0 {
      assert s == s[..|s| - 1] + [s[|s| - 1]];
      RemoveAllAbsent(s[..|s| - 1], c);
    }
  }

  /** Removing a character keeps every other character in order. */
  lemma {:induction false} RemoveAllKeeps(s: string, c: char, keep: char -> bool)
    requires forall i :: 0 <= i < |s| ==> s[i] == c || keep(s[i])
    ensures forall i :: 0 <= i < |RemoveAll(s, c)| ==> keep(RemoveAll(s, c)[i])
  {
    if |s| > 0 {
      RemoveAllKeeps(s[..|s| - 1], c, keep);
    }
  }

  lemma {:induction false} RemoveAllOther(s: string, c: char, d: char)
    requires d !in s
    ensures d !in RemoveAll(s, c)
  {
    if |s| > 0 {
      assert s == s[..|s| - 1] + [s[|s| - 1]];
      RemoveAllOther(s[..|s| - 1], c, d);
    }
  }

  /** Joining and then deleting the separator is concatenation. */
  lemma {:induction false} RemoveSeparatorOfJoin(parts: seq<string>, c: char)
    requires forall i :: 0 <= i < |parts| ==> c !in parts[i]
    ensures RemoveAll(Join(parts, [c]), c) == Concat(parts)
  {
    if |parts| == 1 {
      RemoveAllAbsent(parts[0], c);
      assert Concat(parts) == Concat([]) + parts[0];
    } else if |parts| > 1 {
      var init, last := parts[..|parts| - 1], parts[|parts| - 1];
      forall i | 0 <= i < |init|
        ensures c !in init[i]
      {
        assert init[i] == parts[i];
      }
      RemoveSeparatorOfJoin(init, c);
      RemoveAllAbsent(last, c);
      var j := Join(init, [c]);
      calc {
        RemoveAll(Join(parts, [c]), c);
        RemoveAll(j + [c] + last, c);
        { RemoveAllAppend(j + [c], last, c); }
        RemoveAll(j + [c], c) + last;
        { RemoveAllAppend(j, [c], c); RemoveAllOfSeparator(c); }
        Concat(init) + [] + last;
        { assert Concat(init) + [] == Concat(init); }
        Concat(parts);
      }
    }
  }

  lemma RemoveAllOfSeparator(c: char)
    ensures RemoveAll([c], c) == []
  {
    assert [c][..0] == [];
  }

  lemma {:induction false} JoinDigitsOrSeparator(parts: seq<string>, c: char)
    requires forall i :: 0 <= i < |parts| ==> AllDigits(parts[i])
    ensures forall i :: 0 <= i < |Join(parts, [c])| ==> Join(parts, [c])[i] == c || IsDigit(Join(parts, [c])[i])
  {
    if |parts| > 1 {
      JoinDigitsOrSeparator(parts[..|parts| - 1], c);
    }
  }

  lemma {:induction false} ConcatDigits(parts: seq<string>)
    requires forall i :: 0 <= i < |parts| ==> AllDigits(parts[i])
    ensures AllDigits(Concat(parts))
  {
    if |parts| > 0 {
      ConcatDigits(parts[..|parts| - 1]);
    }
  }

  /** The separator occurs in a join exactly when there are at least two parts. */
  lemma {:induction false} SeparatorInJoin(parts: seq<string>, c: char)
    requires forall i :: 0 <= i < |parts| ==> c !in parts[i]
    ensures c in Join(parts, [c]) <==> |parts| > 1
  {
    if |parts| > 1 {
      var j := Join(parts[..|parts| - 1], [c]);
      assert (j + [c] + parts[|parts| - 1])[|j|] == c;
    }
  }

  /** A string is what comes before position `k`, the code point there and what follows. */
  lemma AroundIndex(s: string, k: int)
    requires 0 <= k < |s|
    ensures s == s[..k] + [s[k]] + s[k + 1..]
  {
  }

  /** The last piece of a split is what follows the last separator. */
  lemma SplitAtLastIndex(s: string, c: char)
    requires c in s
    ensures var k, parts := LastIndexOf(s, c), Split(s, c);
      && parts == Split(s[..k], c) + [s[k + 1..]]
      && parts[..|parts| - 1] == Split(s[..k], c)
      && parts[|parts| - 1] == s[k + 1..]
  {
    var k := LastIndexOf(s, c);
    var pieces := Split(s[..k], c);
    assert (pieces + [s[k + 1..]])[..|pieces|] == pieces;
  }

  lemma {:induction false} ConcatSplit(s: string, c: char)
    ensures Concat(Split(s, c)) == RemoveAll(s, c)
    decreases |s|
  {
    var k := LastIndexOf(s, c);
    if k < 0 {
      RemoveAllAbsent(s, c);
      assert Concat([s]) == Concat([]) + s;
    } else {
      ConcatSplit(s[..k], c);
      ConcatSplitAtLast(s, c, k);
      RemoveAllAtLast(s, c, k);
    }
  }

  lemma ConcatSplitAtLast(s: string, c: char, k: int)
    requires 0 <= k < |s| && k == LastIndexOf(s, c)
    ensures Concat(Split(s, c)) == Concat(Split(s[..k], c)) + s[k + 1..]
  {
    var pieces := Split(s[..k], c);
    assert Split(s, c) == pieces + [s[k + 1..]];
    assert (pieces + [s[k + 1..]])[..|pieces|] == pieces;
  }

  lemma RemoveAllAtLast(s: string, c: char, k: int)
    requires 0 <= k < |s| && k == LastIndexOf(s, c)
    ensures RemoveAll(s, c) == RemoveAll(s[..k], c) + s[k + 1..]
  {
    var a, b := s[..k], s[k + 1..];
    AroundIndex(s, k);
    RemoveAllOfSeparator(c);
    RemoveAllAbsent(b, c);
    calc {
      RemoveAll(s, c);
      RemoveAll(a + [c] + b, c);
      { RemoveAllAppend(a + [c], b, c); }
      RemoveAll(a + [c], c) + b;
      { RemoveAllAppend(a, [c], c); }
      RemoveAll(a, c) + [] + b;
      { assert RemoveAll(a, c) + [] == RemoveAll(a, c); }
      RemoveAll(a, c) + b;
    }
  }

  /** A split has one more piece than there are separators. */
  lemma {:induction false} SplitLength(s: string, c: char)
    ensures |Split(s, c)| == Count(s, c) + 1
    decreases |s|
  {
    var k := LastIndexOf(s, c);
    if k < 0 {
      CountAbsent(s, c);
    } else {
      SplitLength(s[..k], c);
      CountAppend(s[..k] + [c], s[k + 1..], c);
      CountAppend(s[..k], [c], c);
      assert [c][..0] == [];
      CountAbsent(s[k + 1..], c);
      assert s == s[..k] + [c] + s[k + 1..];
    }
  }

  lemma {:induction false} CountAbsent(s: string, c: char)
    requires c !in s
    ensures Count(s, c) == 0
  {
    if |s| > 0 {
      assert s == s[..|s| - 1] + [s[|s| - 1]];
      CountAbsent(s[..|s| - 1], c);
    }
  }

  lemma {:induction false} CountPresent(s: string, c: char)
    requires c in s
    ensures Count(s, c) > 0
  {
    assert s == s[..|s| - 1] + [s[|s| - 1]];
    if s[|s| - 1] != c {
      CountPresent(s[..|s| - 1], c);
    }
  }

  lemma {:induction false} CountAppend(a: string, b: string, c: char)
    ensures Count(a + b, c) == Count(a, c) + Count(b, c)
    decreases |b|
  {
    if |b| == 0 {
      assert a + b == a;
    } else {
      CountAppend(a, b[..|b| - 1], c);
      assert (a + b)[..|a + b| - 1] == a + b[..|b| - 1];
    }
  }

  lemma {:induction false} DigitsValueOfNatToString(n: nat)
    ensures DigitsValue(NatToString(n)) == n
  {
    if n >= 10 {
      DigitsValueOfNatToString(n / 10);
      var r := NatToString(n / 10) + [('0' as int + n % 10) as char];
      assert r[..|r| - 1] == NatToString(n / 10);
    }
  }

  /** Deleting one character keeps every other character present. */
  lemma {:induction false} RemoveAllKeepsOther(s: string, c: char, x: char)
    requires x in s && x != c
    ensures x in RemoveAll(s, c)
  {
    assert s == s[..|s| - 1] + [s[|s| - 1]];
    if s[|s| - 1] != x {
      RemoveAllKeepsOther(s[..|s| - 1], c, x);
    }
  }

  /** A join of at least two parts, read from the front. */
  lemma {:induction false} JoinFront(parts: seq<string>, sep: string)
    requires |parts| >= 2
    ensures Join(parts, sep) == parts[0] + sep + Join(parts[1..], sep)
  {
    if |parts| > 2 {
      var init := parts[..|parts| - 1];
      JoinFront(init, sep);
      assert init[1..] == parts[1..][..|parts[1..]| - 1];
    }
  }

  /** A join of parts made of digits has only digits besides the separator. */
  lemma JoinWithoutOther(parts: seq<string>, c: char, x: char)
    requires forall i :: 0 <= i < |parts| ==> AllDigits(parts[i])
    requires x != c && !IsDigit(x)
    ensures x !in Join(parts, [c])
  {
    JoinDigitsOrSeparator(parts, c);
  }

  /** Splitting a join on its separator gives the parts back, when no part holds the separator. */
  lemma {:induction false} SplitOfJoin(parts: seq<string>, c: char)
    requires |parts| > 0
    requires forall i :: 0 <= i < |parts| ==> c !in parts[i]
    ensures Split(Join(parts, [c]), c) == parts
  {
    if |parts| == 1 {
      assert Join(parts, [c]) == parts[0];
    } else {
      var init := parts[..|parts| - 1];
      var last := parts[|parts| - 1];
      var j := Join(init, [c]);
      var s := Join(parts, [c]);
      assert s == j + [c] + last;
      assert s[|j| + 1..] == last;
      LastIndexOfAt(s, c, |j|);
      assert s[..|j|] == j;
      SplitOfJoin(init, c);
      assert parts == init + [last];
    }
  }
}
