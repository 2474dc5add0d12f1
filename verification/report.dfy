/**
 * The Report screen: the snapshot in newest-first order, the category and
 * search filters with the amount sort, the category pie with its palette, the
 * monthly bars and the category picker's entries.
 */
module Report {
  import opened Wrappers
  import opened Seqs
  import opened Strings
  import opened Sorting
  import opened JsObjects
  import opened Grouping
  import opened Records
  import opened Amounts

  function Amount(e: Entry): real {
    e.parsedAmount
  }

  /** The snapshot's documents with amounts parsed by the Report screen's `parseAmount`. */
  function ReportEntries(docs: seq<Document>): (r: seq<Entry>)
    ensures |r| == |docs|
    ensures forall i :: 0 <= i < |r| ==> r[i].doc == docs[i] && r[i].parsedAmount >= 0.0
  {
    Load(docs, ReportParseAmount)
  }

  // ---------------------------------------------------------------------------
  // Newest first
  // ---------------------------------------------------------------------------

  /** `(t.date?.toDate() || new Date(0)).getTime()`. */
  function DateMillis(e: Entry): int {
    if e.doc.date.Some? then Millis(e.doc.date.value) else 0
  }

  /** The comparator `dateB.getTime() - dateA.getTime()` as an order: later first. */
  function NewestFirst(): (Entry, Entry) -> bool {
    (a: Entry, b: Entry) => DateMillis(b) <= DateMillis(a)
  }

  lemma NewestFirstIsTotalPreorder()
    ensures TotalPreorder(NewestFirst())
  {
  }

  /** `transactionsList.sort(...)`, a stable sort. */
  function Snapshot(docs: seq<Document>): (r: seq<Entry>)
    ensures multiset(r) == multiset(ReportEntries(docs))
    ensures forall i, j :: 0 <= i < j < |r| ==> DateMillis(r[i]) >= DateMillis(r[j])
  {
    NewestFirstIsTotalPreorder();
    var r := Sort(ReportEntries(docs), NewestFirst());
    assert SortedBy(r, NewestFirst());
    r
  }

  /** Records with the same millisecond time keep their snapshot order. */
  lemma SnapshotStable(docs: seq<Document>, c: Entry)
    ensures Filter(Snapshot(docs), EquivalentTo(NewestFirst(), c)) == Filter(ReportEntries(docs), EquivalentTo(NewestFirst(), c))
  {
    NewestFirstIsTotalPreorder();
    SortStable(ReportEntries(docs), NewestFirst(), c);
  }

  /** An undated record sorts as if dated at the epoch: after every record dated later than it. */
  lemma UndatedAfterLaterRecords(docs: seq<Document>, i: int, j: int)
    requires 0 <= i < |Snapshot(docs)| && 0 <= j < |Snapshot(docs)|
    requires Snapshot(docs)[i].doc.date.None?
    requires Snapshot(docs)[j].doc.date.Some? && WellFormedTimestamp(Snapshot(docs)[j].doc.date.value)
    requires Snapshot(docs)[j].doc.date.value.seconds >= 1
    ensures j < i
  {
    var r := Snapshot(docs);
    LaterThanEpoch(r[j].doc.date.value);
    NewerComesFirst(r, i, j);
  }

  /** A well-formed timestamp from second 1 on is later than the epoch. */
  lemma LaterThanEpoch(t: Timestamp)
    requires WellFormedTimestamp(t) && t.seconds >= 1
    ensures Millis(t) > 0
  {
    MillisOfWholeSeconds(1);
    MillisMonotone(Timestamp(1, 0), t);
  }

  /** In a list sorted newest first, a strictly newer record comes earlier. */
  lemma NewerComesFirst(r: seq<Entry>, i: int, j: int)
    requires forall a, b :: 0 <= a < b < |r| ==> DateMillis(r[a]) >= DateMillis(r[b])
    requires 0 <= i < |r| && 0 <= j < |r| && DateMillis(r[j]) > DateMillis(r[i])
    ensures j < i
  {
  }

  // ---------------------------------------------------------------------------
  // Category filter, search and amount sort
  // ---------------------------------------------------------------------------

  /**
   * The picker's value, the sort direction and the search text. The picker
   * offers `undefined` (`None`) when some record has no category.
   */
  datatype ReportFilters = ReportFilters(category: Option<string>, ascending: bool, search: string)

  /** `t.category === filterCategory`. */
  function InCategory(c: Option<string>): Entry -> bool {
    (e: Entry) => e.doc.category == c
  }

  /**
   * `items.some(item => item.name.toLowerCase().includes(q))` as written: an
   * item without a name reached before any match throws a TypeError (`None`).
   */
  function SomeItemNamedAsWritten(items: seq<Item>, q: string): Option<bool> {
    if |items| == 0 then Some(false)
    else if items[0].name.None? then None
    else if Contains(ToLower(items[0].name.value), q) then Some(true)
    else SomeItemNamedAsWritten(items[1..], q)
  }

  /** `t.field && t.field.toLowerCase().includes(q)`. */
  predicate FieldMentions(o: Option<string>, q: string) {
    Truthy(o) && Contains(ToLower(o.value), q)
  }

  /** The search test as written, `None` when it throws. */
  function SearchAsWritten(e: Entry, q: string): Option<bool> {
    match SomeItemNamedAsWritten(e.doc.items, q)
    case None => None
    case Some(hit) => Some(hit || FieldMentions(e.doc.supplierName, q) || FieldMentions(e.doc.fullText, q))
  }

  /** An item name that contains `q`; an item without a name matches nothing. */
  predicate SomeItemNamed(items: seq<Item>, q: string) {
    exists i :: 0 <= i < |items| && items[i].name.Some? && Contains(ToLower(items[i].name.value), q)
  }

  /** The search test with a missing item name read as matching nothing. */
  predicate SearchHit(e: Entry, q: string) {
    SomeItemNamed(e.doc.items, q) || FieldMentions(e.doc.supplierName, q) || FieldMentions(e.doc.fullText, q)
  }

  function Searching(q: string): Entry -> bool {
    (e: Entry) => SearchHit(e, q)
  }

  predicate AllItemsNamed(items: seq<Item>) {
    forall i :: 0 <= i < |items| ==> items[i].name.Some?
  }

  /** When every item has a name, `some` reads exactly as the intended test. */
  lemma {:induction false} SomeItemNamedAgrees(items: seq<Item>, q: string)
    requires AllItemsNamed(items)
    ensures SomeItemNamedAsWritten(items, q) == Some(SomeItemNamed(items, q))
  {
    if |items| > 0 && !Contains(ToLower(items[0].name.value), q) {
      SomeItemNamedAgrees(items[1..], q);
      if SomeItemNamed(items, q) {
        var i :| 0 <= i < |items| && items[i].name.Some? && Contains(ToLower(items[i].name.value), q);
        assert items[1..][i - 1] == items[i];
      }
      if SomeItemNamed(items[1..], q) {
        var i :| 0 <= i < |items[1..]| && items[1..][i].name.Some? && Contains(ToLower(items[1..][i].name.value), q);
        assert items[i + 1] == items[1..][i];
      }
    } else if |items| > 0 {
      assert items[0].name.Some? && Contains(ToLower(items[0].name.value), q);
    }
  }

  /** On records whose items all have names, the search as written never throws and agrees with `SearchHit`. */
  lemma SearchAgreesWhenNamed(e: Entry, q: string)
    requires AllItemsNamed(e.doc.items)
    ensures SearchAsWritten(e, q) == Some(SearchHit(e, q))
  {
    SomeItemNamedAgrees(e.doc.items, q);
  }

  /** Whenever `some` as written returns, its answer is the intended one. */
  lemma {:induction false} SomeItemNamedWhenItReturns(items: seq<Item>, q: string)
    requires SomeItemNamedAsWritten(items, q).Some?
    ensures SomeItemNamedAsWritten(items, q).value == SomeItemNamed(items, q)
  {
    if |items| > 0 && !Contains(ToLower(items[0].name.value), q) {
      SomeItemNamedWhenItReturns(items[1..], q);
      if SomeItemNamed(items, q) {
        var i :| 0 <= i < |items| && items[i].name.Some? && Contains(ToLower(items[i].name.value), q);
        assert items[1..][i - 1] == items[i];
      }
      if SomeItemNamed(items[1..], q) {
        var i :| 0 <= i < |items[1..]| && items[1..][i].name.Some? && Contains(ToLower(items[1..][i].name.value), q);
        assert items[i + 1] == items[1..][i];
      }
    } else if |items| > 0 {
      assert items[0].name.Some? && Contains(ToLower(items[0].name.value), q);
    }
  }

  /** The corrected test only differs from the one as written where that one throws. */
  lemma SearchHitWhenItReturns(e: Entry, q: string)
    requires SearchAsWritten(e, q).Some?
    ensures SearchAsWritten(e, q).value == SearchHit(e, q)
  {
    SomeItemNamedWhenItReturns(e.doc.items, q);
  }

  /** A record whose first item has no name makes the search as written throw, whatever the query. */
  lemma UnnamedItemThrows(e: Entry, q: string)
    requires |e.doc.items| > 0 && e.doc.items[0].name.None?
    ensures SearchAsWritten(e, q).None?
  {
  }

  /** `(a, b) => a.parsedAmount - b.parsedAmount`, or its reverse. */
  function ByAmount(ascending: bool): (Entry, Entry) -> bool {
    if ascending then (a: Entry, b: Entry) => a.parsedAmount <= b.parsedAmount
    else (a: Entry, b: Entry) => b.parsedAmount <= a.parsedAmount
  }

  lemma ByAmountIsTotalPreorder(ascending: bool)
    ensures TotalPreorder(ByAmount(ascending))
  {
  }

  /** The category filter and then the search, a missing item name matching nothing. */
  function Narrowed(all: seq<Entry>, f: ReportFilters): seq<Entry> {
    var byCategory := if f.category != Some("All") then Filter(all, InCategory(f.category)) else all;
    if f.search != "" then Filter(byCategory, Searching(ToLower(f.search))) else byCategory
  }

  /** The category filter, the search and the amount sort. */
  function ReportView(all: seq<Entry>, f: ReportFilters): (r: seq<Entry>)
    ensures forall i, j :: 0 <= i < j < |r| ==>
      if f.ascending then r[i].parsedAmount <= r[j].parsedAmount else r[i].parsedAmount >= r[j].parsedAmount
  {
    ByAmountIsTotalPreorder(f.ascending);
    var r := Sort(Narrowed(all, f), ByAmount(f.ascending));
    assert SortedBy(r, ByAmount(f.ascending));
    r
  }

  /** A record is kept when it is in the picked category (any, for "All") and matches a non-empty search. */
  predicate ReportPasses(e: Entry, f: ReportFilters) {
    && (f.category == Some("All") || e.doc.category == f.category)
    && (f.search == "" || SearchHit(e, ToLower(f.search)))
  }

  /** The two filter stages keep exactly the passing records, in their order. */
  lemma NarrowedIsPassing(all: seq<Entry>, f: ReportFilters)
    ensures Narrowed(all, f) == Filter(all, (e: Entry) => ReportPasses(e, f))
  {
    var p := (e: Entry) => ReportPasses(e, f);
    if f.category != Some("All") {
      if f.search != "" {
        FilterFilter(all, InCategory(f.category), Searching(ToLower(f.search)));
        FilterCongruent(all, Both(InCategory(f.category), Searching(ToLower(f.search))), p);
      } else {
        FilterCongruent(all, InCategory(f.category), p);
      }
    } else {
      if f.search != "" {
        FilterCongruent(all, Searching(ToLower(f.search)), p);
      } else {
        FilterAll(all, p);
      }
    }
  }

  /** The view holds the passing records, each as often as in the list, and nothing else. */
  lemma ReportViewContents(all: seq<Entry>, f: ReportFilters)
    ensures multiset(ReportView(all, f)) == multiset(Filter(all, (e: Entry) => ReportPasses(e, f)))
  {
    NarrowedIsPassing(all, f);
    ByAmountIsTotalPreorder(f.ascending);
  }

  /**
   * Whatever the filters, passing records with equal amounts keep the
   * newest-first order they had.
   */
  lemma ReportViewStable(all: seq<Entry>, f: ReportFilters, c: Entry)
    ensures Filter(ReportView(all, f), EquivalentTo(ByAmount(f.ascending), c))
         == Filter(Filter(all, (e: Entry) => ReportPasses(e, f)), EquivalentTo(ByAmount(f.ascending), c))
  {
    NarrowedIsPassing(all, f);
    ByAmountIsTotalPreorder(f.ascending);
    SortStable(Narrowed(all, f), ByAmount(f.ascending), c);
  }

  // ---------------------------------------------------------------------------
  // The category pie
  // ---------------------------------------------------------------------------

  /** `categoryExpenses[t.category]`: a missing category is the key "undefined". */
  function PieKey(e: Entry): string {
    PropertyKey(e.doc.category)
  }

  predicate NotIncome(e: Entry) {
    e.doc.category != Some("Income")
  }

  function CategoryExpenses(filtered: seq<Entry>): Table {
    Group(filtered, NotIncome, PieKey, Amount)
  }

  const Palette: seq<string> := [
    "#FF6384", "#36A2EB", "#FFCE56", "#4BC0C0", "#9966FF",
    "#FF9F40", "#E7E9ED", "#8B0000", "#008000", "#ADD8E6"
  ]

  datatype Slice = Slice(name: string, population: real, color: string)

  function Population(s: Slice): real {
    s.population
  }

  function Positive(): Slice -> bool {
    (s: Slice) => s.population > 0.0
  }

  /** Every key with its total and the colour of its position, before zero totals are dropped. */
  function ColoredSlices(t: Table, keys: seq<string>): (r: seq<Slice>)
    ensures |r| == |keys|
    ensures forall i :: 0 <= i < |r| ==> r[i] == Slice(keys[i], Get(t, keys[i]), Palette[i % |Palette|])
  {
    seq(|keys|, i requires 0 <= i < |keys| => Slice(keys[i], Get(t, keys[i]), Palette[i % |Palette|]))
  }

  /** Each slice is a key with its positive total, coloured by the key's position among all the keys. */
  ghost predicate SlicesKeyed(r: seq<Slice>, t: Table, keys: seq<string>) {
    forall i :: 0 <= i < |r| ==>
      && r[i].name in keys
      && r[i].population == Get(t, r[i].name) > 0.0
      && r[i].color == Palette[FirstIndex(keys, r[i].name) % |Palette|]
  }

  /** The slices follow the order of their keys. */
  ghost predicate SlicesOrdered(r: seq<Slice>, keys: seq<string>) {
    forall i, j :: 0 <= i < j < |r| ==>
      r[i].name in keys && r[j].name in keys && FirstIndex(keys, r[i].name) < FirstIndex(keys, r[j].name)
  }

  /** Every key with a positive total has a slice. */
  ghost predicate SlicesComplete(r: seq<Slice>, t: Table, keys: seq<string>) {
    forall k :: 0 <= k < |keys| && Get(t, keys[k]) > 0.0 ==> exists i :: 0 <= i < |r| && r[i].name == keys[k]
  }

  /**
   * The slices `keys.map(...).filter(population > 0)` gives: a dropped key
   * still uses up its colour, the rest keep key order, and none is missing.
   */
  ghost predicate SlicesFollowKeys(r: seq<Slice>, t: Table, keys: seq<string>) {
    SlicesKeyed(r, t, keys) && SlicesOrdered(r, keys) && SlicesComplete(r, t, keys)
  }

  /** `getPieChartData`. */
  function PieData(filtered: seq<Entry>): (r: seq<Slice>)
    ensures forall i :: 0 <= i < |r| ==> r[i].population > 0.0 && r[i].color in Palette
    ensures forall i :: 0 <= i < |r| ==> r[i].population == SumWhere(filtered, KeyIs(NotIncome, PieKey, r[i].name), Amount)
    ensures forall i :: 0 <= i < |r| ==> r[i].name in Map(Filter(filtered, NotIncome), PieKey)
    ensures SlicesFollowKeys(r, CategoryExpenses(filtered), ObjectKeys(Keys(CategoryExpenses(filtered))))
  {
    var t := CategoryExpenses(filtered);
    var keys := ObjectKeys(Keys(t));
    var all := ColoredSlices(t, keys);
    PieKeysFacts(filtered, keys);
    GroupKeysDistinct(filtered, NotIncome, PieKey, Amount);
    DistinctOfPermutation(Keys(t), keys);
    PositiveSlicesFollowKeys(t, keys);
    Filter(all, Positive())
  }

  /** The last of distinct keys sits at the last position, and the others keep theirs without it. */
  lemma LastKeyPosition(keys: seq<string>)
    requires |keys| > 0 && Distinct(keys)
    ensures var ks := keys[..|keys| - 1];
      && Distinct(ks)
      && keys[|keys| - 1] !in ks
      && FirstIndex(keys, keys[|keys| - 1]) == |keys| - 1
      && forall x :: x in ks ==> x in keys && FirstIndex(keys, x) == FirstIndex(ks, x)
  {
    var ks := keys[..|keys| - 1];
    var last := keys[|keys| - 1];
    assert keys == ks + [last];
    forall x | x in ks
      ensures x in keys && FirstIndex(keys, x) == FirstIndex(ks, x)
    {
      FirstIndexOfPrefix(ks, last, x);
    }
    DistinctPositions(keys, FirstIndex(keys, last), |keys| - 1);
  }

  lemma ColoredSlicesOfPrefix(t: Table, keys: seq<string>)
    requires |keys| > 0
    ensures var n := |keys| - 1;
      ColoredSlices(t, keys) == ColoredSlices(t, keys[..n]) + [Slice(keys[n], Get(t, keys[n]), Palette[n % |Palette|])]
  {
  }

  /** The last slice of the coloured keys, kept when its total is positive. */
  function LastSlice(t: Table, keys: seq<string>): Slice
    requires |keys| > 0
  {
    Slice(keys[|keys| - 1], Get(t, keys[|keys| - 1]), Palette[(|keys| - 1) % |Palette|])
  }

  function KeepIfPositive(x: Slice): seq<Slice> {
    if x.population > 0.0 then [x] else []
  }

  lemma KeyedStep(r': seq<Slice>, t: Table, keys: seq<string>)
    requires |keys| > 0 && Distinct(keys)
    requires SlicesKeyed(r', t, keys[..|keys| - 1])
    ensures SlicesKeyed(r' + KeepIfPositive(LastSlice(t, keys)), t, keys)
  {
    LastKeyPosition(keys);
    var r := r' + KeepIfPositive(LastSlice(t, keys));
    forall i | 0 <= i < |r|
      ensures r[i].name in keys && r[i].population == Get(t, r[i].name) > 0.0
      ensures r[i].color == Palette[FirstIndex(keys, r[i].name) % |Palette|]
    {
      if i < |r'| {
        assert r[i] == r'[i];
      }
    }
  }

  lemma OrderedStep(r': seq<Slice>, t: Table, keys: seq<string>)
    requires |keys| > 0 && Distinct(keys)
    requires SlicesKeyed(r', t, keys[..|keys| - 1]) && SlicesOrdered(r', keys[..|keys| - 1])
    ensures SlicesOrdered(r' + KeepIfPositive(LastSlice(t, keys)), keys)
  {
    LastKeyPosition(keys);
    var r := r' + KeepIfPositive(LastSlice(t, keys));
    forall i, j | 0 <= i < j < |r|
      ensures r[i].name in keys && r[j].name in keys && FirstIndex(keys, r[i].name) < FirstIndex(keys, r[j].name)
    {
      assert r[i] == r'[i];
      if j < |r'| {
        assert r[j] == r'[j];
      }
    }
  }

  lemma CompleteStep(r': seq<Slice>, t: Table, keys: seq<string>)
    requires |keys| > 0
    requires SlicesComplete(r', t, keys[..|keys| - 1])
    ensures SlicesComplete(r' + KeepIfPositive(LastSlice(t, keys)), t, keys)
  {
    var n := |keys| - 1;
    var r := r' + KeepIfPositive(LastSlice(t, keys));
    forall k | 0 <= k < |keys| && Get(t, keys[k]) > 0.0
      ensures exists i :: 0 <= i < |r| && r[i].name == keys[k]
    {
      if k < n {
        assert keys[k] == keys[..n][k];
        var i :| 0 <= i < |r'| && r'[i].name == keys[..n][k];
        assert r[i] == r'[i];
      } else {
        assert r[|r'|] == LastSlice(t, keys);
      }
    }
  }

  /** Dropping the zero slices keeps the key order and each key's colour. */
  lemma {:induction false} PositiveSlicesFollowKeys(t: Table, keys: seq<string>)
    requires Distinct(keys)
    ensures SlicesFollowKeys(Filter(ColoredSlices(t, keys), Positive()), t, keys)
  {
    if |keys| > 0 {
      var ks := keys[..|keys| - 1];
      var all := ColoredSlices(t, keys);
      LastKeyPosition(keys);
      ColoredSlicesOfPrefix(t, keys);
      assert all[..|all| - 1] == ColoredSlices(t, ks);
      assert all[|all| - 1] == LastSlice(t, keys);
      PositiveSlicesFollowKeys(t, ks);
      var r' := Filter(ColoredSlices(t, ks), Positive());
      assert Filter(all, Positive()) == r' + KeepIfPositive(LastSlice(t, keys));
      KeyedStep(r', t, keys);
      OrderedStep(r', t, keys);
      CompleteStep(r', t, keys);
    }
  }

  lemma PieKeysFacts(filtered: seq<Entry>, keys: seq<string>)
    requires keys == ObjectKeys(Keys(CategoryExpenses(filtered)))
    ensures forall k :: 0 <= k < |keys| ==>
      && Get(CategoryExpenses(filtered), keys[k]) == SumWhere(filtered, KeyIs(NotIncome, PieKey, keys[k]), Amount)
      && keys[k] in Map(Filter(filtered, NotIncome), PieKey)
  {
    var t := CategoryExpenses(filtered);
    GroupKeys(filtered, NotIncome, PieKey, Amount);
    forall k | 0 <= k < |keys|
      ensures Get(t, keys[k]) == SumWhere(filtered, KeyIs(NotIncome, PieKey, keys[k]), Amount)
      ensures keys[k] in Map(Filter(filtered, NotIncome), PieKey)
    {
      GroupGet(filtered, NotIncome, PieKey, Amount, keys[k]);
      assert keys[k] in multiset(Keys(t));
    }
  }

  /** No slice is named "Income". */
  lemma PieHasNoIncome(filtered: seq<Entry>, i: int)
    requires 0 <= i < |PieData(filtered)|
    ensures PieData(filtered)[i].name != "Income"
  {
    var m := Map(Filter(filtered, NotIncome), PieKey);
    assert PieData(filtered)[i].name in m;
    var k :| 0 <= k < |m| && m[k] == PieData(filtered)[i].name;
  }

  /** With nonnegative amounts, the slices add up to every non-income amount. */
  lemma PieAddsUpToExpenses(filtered: seq<Entry>)
    requires forall i :: 0 <= i < |filtered| ==> filtered[i].parsedAmount >= 0.0
    ensures SumOf(PieData(filtered), Population) == SumWhere(filtered, NotIncome, Amount)
  {
    var t := CategoryExpenses(filtered);
    var keys := ObjectKeys(Keys(t));
    var all := ColoredSlices(t, keys);
    SlicesNonNegative(filtered);
    DroppingZeros(all, Positive(), Population);
    SumWhereIsSumOfFilter(all, Positive(), Population);
    SlicesSumGets(t, keys);
    GroupKeysDistinct(filtered, NotIncome, PieKey, Amount);
    SumOverKeyOrder(t, keys);
    GroupTotal(filtered, NotIncome, PieKey, Amount);
  }

  lemma SlicesNonNegative(filtered: seq<Entry>)
    requires forall i :: 0 <= i < |filtered| ==> filtered[i].parsedAmount >= 0.0
    ensures var t := CategoryExpenses(filtered); var all := ColoredSlices(t, ObjectKeys(Keys(t)));
      forall i :: 0 <= i < |all| ==> all[i].population >= 0.0
  {
    var t := CategoryExpenses(filtered);
    var keys := ObjectKeys(Keys(t));
    forall i | 0 <= i < |keys|
      ensures Get(t, keys[i]) >= 0.0
    {
      SumWhereNonNegative(filtered, KeyIs(NotIncome, PieKey, keys[i]), Amount);
      GroupGet(filtered, NotIncome, PieKey, Amount, keys[i]);
    }
  }

  /** Leaving out elements worth zero does not change a sum. */
  lemma {:induction false} DroppingZeros<T>(s: seq<T>, p: T -> bool, v: T -> real)
    requires forall i :: 0 <= i < |s| && !p(s[i]) ==> v(s[i]) == 0.0
    ensures SumWhere(s, p, v) == SumOf(s, v)
  {
    if |s| > 0 {
      DroppingZeros(s[..|s| - 1], p, v);
    }
  }

  lemma {:induction false} SlicesSumGets(t: Table, keys: seq<string>)
    ensures SumOf(ColoredSlices(t, keys), Population) == SumOf(keys, k => Get(t, k))
  {
    if |keys| > 0 {
      var init := keys[..|keys| - 1];
      SlicesSumGets(t, init);
      var a := ColoredSlices(t, keys);
      assert a[..|keys| - 1] == ColoredSlices(t, init);
    }
  }

  // ---------------------------------------------------------------------------
  // The monthly bars
  // ---------------------------------------------------------------------------

  /** The default `sort()` order on strings: code point by code point, a prefix first. */
  predicate LexLe(a: string, b: string) {
    |a| == 0 || (|b| > 0 && (a[0] < b[0] || (a[0] == b[0] && LexLe(a[1..], b[1..]))))
  }

  lemma {:induction false} LexLeTotal(a: string, b: string)
    ensures LexLe(a, b) || LexLe(b, a)
  {
    if |a| > 0 && |b| > 0 && a[0] == b[0] {
      LexLeTotal(a[1..], b[1..]);
    }
  }

  lemma {:induction false} LexLeTransitive(a: string, b: string, c: string)
    requires LexLe(a, b) && LexLe(b, c)
    ensures LexLe(a, c)
  {
    if |a| > 0 && a[0] == b[0] && b[0] == c[0] {
      LexLeTransitive(a[1..], b[1..], c[1..]);
    }
  }

  lemma LexLeIsTotalPreorder()
    ensures TotalPreorder(LexLe)
  {
    forall a, b
      ensures LexLe(a, b) || LexLe(b, a)
    {
      LexLeTotal(a, b);
    }
    forall a, b, c | LexLe(a, b) && LexLe(b, c)
      ensures LexLe(a, c)
    {
      LexLeTransitive(a, b, c);
    }
  }

  /** `t.date && t.category !== "Income"`. */
  predicate InMonthly(e: Entry) {
    e.doc.date.Some? && NotIncome(e)
  }

  /** `t.date.toDate().toISOString().substring(0, 7)`, given `isoMonth` for the conversion. */
  function MonthKey(isoMonth: Timestamp -> string): Entry -> string {
    (e: Entry) => if e.doc.date.Some? then isoMonth(e.doc.date.value) else ""
  }

  function MonthlyExpenses(filtered: seq<Entry>, isoMonth: Timestamp -> string): Table {
    Group(filtered, InMonthly, MonthKey(isoMonth), Amount)
  }

  /** `` `${mon}/${year.substring(2)}` `` with `[year, mon] = month.split('-')`. */
  function MonthLabel(month: string): string {
    var parts := Split(month, '-');
    var year := parts[0];
    var mon := if |parts| > 1 then parts[1] else "undefined";
    mon + "/" + (if |year| >= 2 then year[2..] else "")
  }

  /** "YYYY-MM" is labelled "MM/YY". */
  lemma MonthLabelOfIsoMonth(year: string, mon: string)
    requires |year| == 4 && AllDigits(year) && |mon| == 2 && AllDigits(mon)
    ensures MonthLabel(year + "-" + mon) == mon + "/" + year[2..]
  {
    DigitsExclude(year, '-');
    DigitsExclude(mon, '-');
    assert Join([year, mon], "-") == year + "-" + mon by {
      assert [year, mon][..1] == [year];
      assert Join([year], "-") == year;
    }
    SplitOfJoin([year, mon], '-');
  }

  datatype BarChart = BarChart(labels: seq<string>, data: seq<real>)

  /** The months in the default sort order. */
  function SortedMonths(filtered: seq<Entry>, isoMonth: Timestamp -> string): (months: seq<string>)
    ensures forall i, j :: 0 <= i < j < |months| ==> LexLe(months[i], months[j])
    ensures multiset(months) == multiset(Dedup(Map(Filter(filtered, InMonthly), MonthKey(isoMonth))))
  {
    LexLeIsTotalPreorder();
    GroupKeys(filtered, InMonthly, MonthKey(isoMonth), Amount);
    var months := Sort(ObjectKeys(Keys(MonthlyExpenses(filtered, isoMonth))), LexLe);
    assert SortedBy(months, LexLe);
    months
  }

  /** `getBarChartData`. */
  function MonthlyBars(filtered: seq<Entry>, isoMonth: Timestamp -> string): (r: BarChart)
    ensures |r.labels| == |r.data| == |SortedMonths(filtered, isoMonth)|
    ensures forall i :: 0 <= i < |r.labels| ==> r.labels[i] == MonthLabel(SortedMonths(filtered, isoMonth)[i])
  {
    var months := SortedMonths(filtered, isoMonth);
    var t := MonthlyExpenses(filtered, isoMonth);
    BarChart(Map(months, MonthLabel), Map(months, (m: string) => Get(t, m)))
  }

  /** Each bar is the sum of the amounts of the dated non-income records of its month. */
  lemma MonthlyBarsTotals(filtered: seq<Entry>, isoMonth: Timestamp -> string, i: int)
    requires 0 <= i < |SortedMonths(filtered, isoMonth)|
    ensures MonthlyBars(filtered, isoMonth).data[i]
      == SumWhere(filtered, KeyIs(InMonthly, MonthKey(isoMonth), SortedMonths(filtered, isoMonth)[i]), Amount)
  {
    var months := SortedMonths(filtered, isoMonth);
    var t := MonthlyExpenses(filtered, isoMonth);
    assert MonthlyBars(filtered, isoMonth).data == Map(months, (m: string) => Get(t, m));
    GroupGet(filtered, InMonthly, MonthKey(isoMonth), Amount, months[i]);
  }

  // ---------------------------------------------------------------------------
  // The category picker
  // ---------------------------------------------------------------------------

  function CategoryOf(e: Entry): Option<string> {
    e.doc.category
  }

  function NotIncomeValue(c: Option<string>): bool {
    c != Some("Income")
  }

  /** `['All', ...new Set(allTransactions.map(t => t.category).filter(c => c !== "Income"))]`. */
  function AvailableCategories(all: seq<Entry>): (r: seq<Option<string>>)
    ensures |r| > 0 && r[0] == Some("All")
    ensures Distinct(r[1..])
    ensures forall i :: 1 <= i < |r| ==> r[i] != Some("Income") && exists k :: 0 <= k < |all| && all[k].doc.category == r[i]
    ensures forall k :: 0 <= k < |all| && all[k].doc.category != Some("Income") ==> all[k].doc.category in r[1..]
  {
    var m := Map(all, CategoryOf);
    var d := Dedup(Filter(m, NotIncomeValue));
    var r := [Some("All")] + d;
    assert r[1..] == d;
    forall i | 1 <= i < |r|
      ensures r[i] != Some("Income") && exists k :: 0 <= k < |all| && all[k].doc.category == r[i]
    {
      assert r[i] == d[i - 1];
      var k :| 0 <= k < |m| && m[k] == r[i];
    }
    forall k | 0 <= k < |all| && all[k].doc.category != Some("Income")
      ensures all[k].doc.category in d
    {
      assert m[k] == all[k].doc.category;
    }
    r
  }

  /** The categories are listed in the order they first appear in the snapshot. */
  lemma AvailableCategoriesInFirstAppearance(all: seq<Entry>)
    ensures var r := AvailableCategories(all); var m := Filter(Map(all, CategoryOf), NotIncomeValue);
      forall i, j :: 1 <= i < j < |r| ==> r[i] in m && r[j] in m && FirstIndex(m, r[i]) < FirstIndex(m, r[j])
  {
    var m := Filter(Map(all, CategoryOf), NotIncomeValue);
    AvailableCategoriesTail(all);
    TailInFirstAppearance(AvailableCategories(all), m);
  }

  lemma TailInFirstAppearance(r: seq<Option<string>>, m: seq<Option<string>>)
    requires |r| > 0 && r[1..] == Dedup(m)
    ensures forall i, j :: 1 <= i < j < |r| ==> r[i] in m && r[j] in m && FirstIndex(m, r[i]) < FirstIndex(m, r[j])
  {
    forall i, j | 1 <= i < j < |r|
      ensures r[i] in m && r[j] in m && FirstIndex(m, r[i]) < FirstIndex(m, r[j])
    {
      assert r[i] == r[1..][i - 1] && r[j] == r[1..][j - 1];
      DedupFirstAppearance(m, i - 1, j - 1);
    }
  }

  lemma AvailableCategoriesTail(all: seq<Entry>)
    ensures AvailableCategories(all)[1..] == Dedup(Filter(Map(all, CategoryOf), NotIncomeValue))
  {
  }

  /**
   * Every button after "All" selects the records of its category and at least
   * one of them, the `undefined` button selecting the uncategorised records;
   * a category literally named "All" is the exception, as it selects everything.
   */
  lemma PickerChoiceShowsItsRecords(all: seq<Entry>, i: int, ascending: bool)
    requires 1 <= i < |AvailableCategories(all)| && AvailableCategories(all)[i] != Some("All")
    ensures var v := ReportView(all, ReportFilters(AvailableCategories(all)[i], ascending, ""));
      && |v| > 0
      && forall j :: 0 <= j < |v| ==> v[j].doc.category == AvailableCategories(all)[i]
  {
    var c := AvailableCategories(all)[i];
    var f := ReportFilters(c, ascending, "");
    var n := Filter(all, InCategory(c));
    var k :| 0 <= k < |all| && all[k].doc.category == c;
    assert all[k] in n;
    assert Narrowed(all, f) == n;
    ByAmountIsTotalPreorder(ascending);
    var v := ReportView(all, f);
    assert multiset(v) == multiset(n);
    assert all[k] in multiset(v);
    forall j | 0 <= j < |v|
      ensures v[j].doc.category == c
    {
      assert v[j] in multiset(n);
    }
  }

  /** A record whose category is literally "All" makes the picker list "All" twice. */
  lemma CategoryNamedAllListedTwice(all: seq<Entry>, k: int)
    requires 0 <= k < |all| && all[k].doc.category == Some("All")
    ensures Some("All") in AvailableCategories(all)[1..]
  {
  }
}
