/**
 * Plain JS objects used as accumulators (`totals[key] = (totals[key] || 0) + x`)
 * and the order in which `Object.keys` lists their keys: ECMA-262's
 * OrdinaryOwnPropertyKeys (section 10.1.11.1) lists the keys that are array
 * indices first, in ascending numeric order, and then the other string keys in
 * the order they were created.
 */
module JsObjects {
  import opened Wrappers
  import opened Seqs
  import opened Strings
  import opened Sorting

  /** An array index: a canonical decimal numeral below 2^32 - 1 (section 6.1.7). */
  predicate IsArrayIndex(k: string) {
    |k| > 0 && AllDigits(k) && (k[0] != '0' || |k| == 1) && DigitsValue(k) < 4294967295
  }

  /** `a` is listed no later than `b`: array indices by value, before every other key. */
  predicate KeyLe(a: string, b: string) {
    if IsArrayIndex(a) then !IsArrayIndex(b) || DigitsValue(a) <= DigitsValue(b)
    else !IsArrayIndex(b)
  }

  lemma KeyLeIsTotalPreorder()
    ensures TotalPreorder(KeyLe)
  {
  }

  /** The property key a JS value becomes: `undefined` turns into the string "undefined". */
  function PropertyKey(k: Option<string>): string {
    k.GetOr("undefined")
  }

  /** `Object.keys` of an object whose keys were created in the order `created`. */
  function ObjectKeys(created: seq<string>): (r: seq<string>)
    ensures multiset(r) == multiset(created)
    ensures SortedBy(r, KeyLe)
  {
    KeyLeIsTotalPreorder();
    Sort(created, KeyLe)
  }

  predicate IsNamedKey(k: string) {
    !IsArrayIndex(k)
  }

  /** Keys that are not array indices keep their creation order. */
  lemma NamedKeysKeepCreationOrder(created: seq<string>)
    ensures Filter(ObjectKeys(created), IsNamedKey) == Filter(created, IsNamedKey)
  {
    KeyLeIsTotalPreorder();
    SortStable(created, KeyLe, "");
    var r := ObjectKeys(created);
    FilterCongruent(r, EquivalentTo(KeyLe, ""), IsNamedKey);
    FilterCongruent(created, EquivalentTo(KeyLe, ""), IsNamedKey);
  }

  /** Without array-index keys, `Object.keys` is the creation order. */
  lemma ObjectKeysOfNamedKeys(created: seq<string>)
    requires forall i :: 0 <= i < |created| ==> !IsArrayIndex(created[i])
    ensures ObjectKeys(created) == created
  {
    KeyLeIsTotalPreorder();
    SortOfEquivalent(created, KeyLe);
  }
}
