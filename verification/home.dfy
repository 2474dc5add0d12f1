/**
 * The Home screen: the filter pass over all of the user's transactions, the
 * expense total, the category pie and daily bar aggregations, the category
 * selection toggle and the edit form's validation.
 */
module Home {
  import opened Wrappers
  import opened Seqs
  import opened Strings
  import opened Sorting
  import opened JsNumbers
  import opened JsObjects
  import opened Grouping
  import opened Records
  import opened Amounts

  /** The snapshot's documents as the Home screen holds them, amounts parsed by its `parseAmount`. */
  function HomeEntries(docs: seq<Document>): (r: seq<Entry>)
    ensures |r| == |docs|
    ensures forall i :: 0 <= i < |r| ==> r[i].doc == docs[i] && r[i].parsedAmount >= 0.0
  {
    Load(docs, HomeParseAmount)
  }

  function Amount(e: Entry): real {
    e.parsedAmount
  }

  // ---------------------------------------------------------------------------
  // Filtering
  // ---------------------------------------------------------------------------

  /**
   * The filter state: the start and end bounds as the seconds of the start of
   * the first day and the end of the last day (absent when no date is picked),
   * the selected categories and the search text.
   */
  datatype Filters = Filters(start: Option<int>, end: Option<int>, selected: seq<string>, query: string)

  function OnOrAfter(start: int): Entry -> bool {
    (e: Entry) => e.doc.date.Some? && e.doc.date.value.seconds >= start
  }

  function OnOrBefore(end: int): Entry -> bool {
    (e: Entry) => e.doc.date.Some? && e.doc.date.value.seconds <= end
  }

  function InSelection(selected: seq<string>): Entry -> bool {
    (e: Entry) => Truthy(e.doc.category) && e.doc.category.value in selected
  }

  /** `field?.toLowerCase() || ''`. */
  function LowerOrEmpty(o: Option<string>): string {
    ToLower(o.GetOr(""))
  }

  /**
   * The search test for a lower-cased query `q`: the supplier, the category,
   * the description or the amount as text contains it, ignoring case.
   * `numberText` is `Number.prototype.toString`.
   */
  predicate SearchHit(e: Entry, q: string, numberText: real -> string) {
    || Contains(LowerOrEmpty(e.doc.supplierName), q)
    || Contains(LowerOrEmpty(e.doc.category), q)
    || Contains(ToLower(Description(e.doc)), q)
    || Contains(ToLower(numberText(e.parsedAmount)), q)
  }

  function Matches(q: string, numberText: real -> string): Entry -> bool {
    (e: Entry) => SearchHit(e, q, numberText)
  }

  /** `filter` applied only when its condition is active. */
  function FilterWhen<T>(active: bool, s: seq<T>, p: T -> bool): seq<T> {
    if active then Filter(s, p) else s
  }

  /** The filter effect, stage by stage as the screen applies it. */
  function FilterTransactions(all: seq<Entry>, f: Filters, numberText: real -> string): seq<Entry> {
    var byStart := FilterWhen(f.start.Some?, all, OnOrAfter(f.start.GetOr(0)));
    var byEnd := FilterWhen(f.end.Some?, byStart, OnOrBefore(f.end.GetOr(0)));
    var byCategory := FilterWhen(|f.selected| > 0, byEnd, InSelection(f.selected));
    FilterWhen(f.query != "", byCategory, Matches(ToLower(f.query), numberText))
  }

  /** A record passes every active filter: the reference reading of the filter effect. */
  predicate Passes(e: Entry, f: Filters, numberText: real -> string) {
    && (f.start.None? || (e.doc.date.Some? && e.doc.date.value.seconds >= f.start.value))
    && (f.end.None? || (e.doc.date.Some? && e.doc.date.value.seconds <= f.end.value))
    && (|f.selected| == 0 || (Truthy(e.doc.category) && e.doc.category.value in f.selected))
    && (f.query == "" || SearchHit(e, ToLower(f.query), numberText))
  }

  function PassesAll(f: Filters, numberText: real -> string): Entry -> bool {
    (e: Entry) => Passes(e, f, numberText)
  }

  /** The conjunction of what was kept so far with one more optional condition. */
  function AndWhen<T>(p: T -> bool, active: bool, q: T -> bool): T -> bool {
    x => p(x) && (!active || q(x))
  }

  /** One more optional stage on a filtered list is one filter by the conjunction. */
  lemma {:induction false} FilterWhenFuses<T>(s: seq<T>, p: T -> bool, active: bool, q: T -> bool)
    ensures FilterWhen(active, Filter(s, p), q) == Filter(s, AndWhen(p, active, q))
  {
    if active {
      FilterFilter(s, p, q);
      FilterCongruent(s, Both(p, q), AndWhen(p, active, q));
    } else {
      FilterCongruent(s, p, AndWhen(p, active, q));
    }
  }

  function Anything<T>(): T -> bool {
    x => true
  }

  /** The four stages fused, as one predicate. */
  function Stages(f: Filters, numberText: real -> string): Entry -> bool {
    var p1 := AndWhen(Anything(), f.start.Some?, OnOrAfter(f.start.GetOr(0)));
    var p2 := AndWhen(p1, f.end.Some?, OnOrBefore(f.end.GetOr(0)));
    var p3 := AndWhen(p2, |f.selected| > 0, InSelection(f.selected));
    AndWhen(p3, f.query != "", Matches(ToLower(f.query), numberText))
  }

  lemma StagesArePasses(f: Filters, numberText: real -> string, e: Entry)
    ensures Stages(f, numberText)(e) == Passes(e, f, numberText)
  {
  }

  /** The staged filter keeps exactly the records that pass every active condition, in order. */
  lemma FilterTransactionsKeepsPassing(all: seq<Entry>, f: Filters, numberText: real -> string)
    ensures FilterTransactions(all, f, numberText) == Filter(all, PassesAll(f, numberText))
  {
    FilterAll(all, Anything());
    var p1 := AndWhen(Anything(), f.start.Some?, OnOrAfter(f.start.GetOr(0)));
    FilterWhenFuses(all, Anything(), f.start.Some?, OnOrAfter(f.start.GetOr(0)));
    var p2 := AndWhen(p1, f.end.Some?, OnOrBefore(f.end.GetOr(0)));
    FilterWhenFuses(all, p1, f.end.Some?, OnOrBefore(f.end.GetOr(0)));
    var p3 := AndWhen(p2, |f.selected| > 0, InSelection(f.selected));
    FilterWhenFuses(all, p2, |f.selected| > 0, InSelection(f.selected));
    FilterWhenFuses(all, p3, f.query != "", Matches(ToLower(f.query), numberText));
    assert FilterTransactions(all, f, numberText) == Filter(all, Stages(f, numberText));
    forall i | 0 <= i < |all|
      ensures Stages(f, numberText)(all[i]) == PassesAll(f, numberText)(all[i])
    {
      StagesArePasses(f, numberText, all[i]);
    }
    FilterCongruent(all, Stages(f, numberText), PassesAll(f, numberText));
  }

  /** The filtered list is an order-preserving sublist; a record is in it exactly when it passes. */
  lemma FilteredIsPassingSublist(all: seq<Entry>, f: Filters, numberText: real -> string)
    ensures IsSubsequence(FilterTransactions(all, f, numberText), all)
    ensures forall e :: e in FilterTransactions(all, f, numberText) <==> e in all && Passes(e, f, numberText)
  {
    FilterTransactionsKeepsPassing(all, f, numberText);
    FilterIsSubsequence(all, PassesAll(f, numberText));
  }

  /** With no bounds, no selection and no search text, nothing is filtered out. */
  lemma NoFiltersKeepAll(all: seq<Entry>, numberText: real -> string)
    ensures FilterTransactions(all, Filters(None, None, [], ""), numberText) == all
  {
  }

  /** A longer search text never brings back a record that a shorter part of it dropped. */
  lemma {:induction false} LongerQueryNarrows(all: seq<Entry>, f: Filters, longer: string, numberText: real -> string)
    requires f.query != "" && Contains(longer, f.query)
    ensures IsSubsequence(FilterTransactions(all, f.(query := longer), numberText), FilterTransactions(all, f, numberText))
  {
    var g := f.(query := longer);
    FilterTransactionsKeepsPassing(all, f, numberText);
    FilterTransactionsKeepsPassing(all, g, numberText);
    ContainsLowered(longer, f.query);
    forall i | 0 <= i < |all| && PassesAll(g, numberText)(all[i])
      ensures PassesAll(f, numberText)(all[i])
    {
      HitNarrows(all[i], ToLower(longer), ToLower(f.query), numberText);
    }
    FilterMonotone(all, PassesAll(g, numberText), PassesAll(f, numberText));
  }

  lemma HitNarrows(e: Entry, q1: string, q2: string, numberText: real -> string)
    requires Contains(q1, q2)
    requires SearchHit(e, q1, numberText)
    ensures SearchHit(e, q2, numberText)
  {
    if Contains(LowerOrEmpty(e.doc.supplierName), q1) {
      ContainsTransitive(LowerOrEmpty(e.doc.supplierName), q1, q2);
    } else if Contains(LowerOrEmpty(e.doc.category), q1) {
      ContainsTransitive(LowerOrEmpty(e.doc.category), q1, q2);
    } else if Contains(ToLower(Description(e.doc)), q1) {
      ContainsTransitive(ToLower(Description(e.doc)), q1, q2);
    } else {
      ContainsTransitive(ToLower(numberText(e.parsedAmount)), q1, q2);
    }
  }

  /** Lower-casing keeps containment. */
  lemma ContainsLowered(s: string, sub: string)
    requires Contains(s, sub)
    ensures Contains(ToLower(s), ToLower(sub))
  {
    var i := ContainsWitness(s, sub);
    assert ToLower(s)[i..i + |sub|] == ToLower(sub);
    OccurrenceContains(ToLower(s), ToLower(sub), i);
  }

  // ---------------------------------------------------------------------------
  // The expense total
  // ---------------------------------------------------------------------------

  /** A record with a category other than "Income" is an expense. */
  predicate IsExpense(e: Entry) {
    Truthy(e.doc.category) && e.doc.category.value != "Income"
  }

  /** `totalSpent`: the amounts of the filtered expenses added up in list order. */
  function TotalSpent(filtered: seq<Entry>): real {
    SumWhere(filtered, IsExpense, Amount)
  }

  /** The total never counts income and is never negative for amounts the Home screen parsed. */
  lemma TotalSpentNonNegative(docs: seq<Document>, f: Filters, numberText: real -> string)
    ensures TotalSpent(FilterTransactions(HomeEntries(docs), f, numberText)) >= 0.0
  {
    var all := HomeEntries(docs);
    var filtered := FilterTransactions(all, f, numberText);
    FilteredIsPassingSublist(all, f, numberText);
    forall i | 0 <= i < |filtered|
      ensures Amount(filtered[i]) >= 0.0
    {
      assert filtered[i] in all;
    }
    SumWhereNonNegative(filtered, IsExpense, Amount);
  }

  /** Income records do not change the total. */
  lemma {:induction false} TotalSpentIgnoresIncome(filtered: seq<Entry>, e: Entry)
    requires e.doc.category == Some("Income")
    ensures TotalSpent(filtered + [e]) == TotalSpent(filtered)
  {
    assert (filtered + [e])[..|filtered|] == filtered;
  }

  // ---------------------------------------------------------------------------
  // The category pie
  // ---------------------------------------------------------------------------

  /** `transaction.category || 'Other'`. */
  function PieCategory(e: Entry): string {
    OrElse(e.doc.category, "Other")
  }

  predicate InPie(e: Entry) {
    PieCategory(e) != "Income"
  }

  /** The `categoryTotals` object after the `forEach`. */
  function CategoryTotals(filtered: seq<Entry>): Table {
    Group(filtered, InPie, PieCategory, Amount)
  }

  /** One pie slice; its colour is random and is not modelled. */
  datatype Slice = Slice(name: string, population: real)

  function SliceName(s: Slice): string {
    s.name
  }

  /** `Object.keys(categoryTotals).map(...)`. */
  function CategoryPie(filtered: seq<Entry>): (rows: seq<Slice>)
    ensures forall i :: 0 <= i < |rows| ==> rows[i].name != "Income"
    ensures forall i :: 0 <= i < |rows| ==> rows[i].population == SumWhere(filtered, KeyIs(InPie, PieCategory, rows[i].name), Amount)
    ensures multiset(Map(rows, SliceName)) == multiset(Dedup(Map(Filter(filtered, InPie), PieCategory)))
  {
    var t := CategoryTotals(filtered);
    var keys := ObjectKeys(Keys(t));
    PieKeysFacts(filtered, keys);
    var rows := Map(keys, (k: string) => Slice(k, Get(t, k)));
    SliceNamesAreKeys(keys, t);
    rows
  }

  lemma SliceNamesAreKeys(keys: seq<string>, t: Table)
    ensures Map(Map(keys, (k: string) => Slice(k, Get(t, k))), SliceName) == keys
  {
    var rows := Map(keys, (k: string) => Slice(k, Get(t, k)));
    assert forall i :: 0 <= i < |keys| ==> Map(rows, SliceName)[i] == keys[i];
  }

  lemma PieKeysFacts(filtered: seq<Entry>, keys: seq<string>)
    requires keys == ObjectKeys(Keys(CategoryTotals(filtered)))
    ensures multiset(keys) == multiset(Dedup(Map(Filter(filtered, InPie), PieCategory)))
    ensures forall i :: 0 <= i < |keys| ==> keys[i] != "Income"
    ensures forall i :: 0 <= i < |keys| ==> Get(CategoryTotals(filtered), keys[i]) == SumWhere(filtered, KeyIs(InPie, PieCategory, keys[i]), Amount)
  {
    var t := CategoryTotals(filtered);
    GroupKeys(filtered, InPie, PieCategory, Amount);
    forall i | 0 <= i < |keys|
      ensures keys[i] != "Income"
    {
      assert keys[i] in multiset(Keys(t));
      var x := GroupKeyWitness(filtered, InPie, PieCategory, Amount, keys[i]);
    }
    forall i | 0 <= i < |keys|
      ensures Get(t, keys[i]) == SumWhere(filtered, KeyIs(InPie, PieCategory, keys[i]), Amount)
    {
      GroupGet(filtered, InPie, PieCategory, Amount, keys[i]);
    }
  }

  /** Every key of a grouping comes from a counted element. */
  lemma GroupKeyWitness<T>(s: seq<T>, counted: T -> bool, key: T -> string, amount: T -> real, k: string) returns (x: T)
    requires k in Keys(Group(s, counted, key, amount))
    ensures x in s && counted(x) && key(x) == k
  {
    GroupKeys(s, counted, key, amount);
    var m := Map(Filter(s, counted), key);
    assert k in Dedup(m);
    var j :| 0 <= j < |m| && m[j] == k;
    x := Filter(s, counted)[j];
  }

  /** The slices add up to the expense total plus the amounts of records without a category. */
  lemma PieAddsUpToTotal(filtered: seq<Entry>)
    ensures SumOf(CategoryPie(filtered), (s: Slice) => s.population)
      == TotalSpent(filtered) + SumWhere(filtered, (e: Entry) => !Truthy(e.doc.category), Amount)
  {
    var t := CategoryTotals(filtered);
    var keys := ObjectKeys(Keys(t));
    var rows := CategoryPie(filtered);
    assert rows == Map(keys, (k: string) => Slice(k, Get(t, k)));
    PopulationsAreGets(keys, t);
    GroupKeysDistinct(filtered, InPie, PieCategory, Amount);
    SumOverKeyOrder(t, keys);
    GroupTotal(filtered, InPie, PieCategory, Amount);
    SumWhereSplit(filtered, InPie, (e: Entry) => !Truthy(e.doc.category), IsExpense, Amount);
  }

  lemma {:induction false} PopulationsAreGets(keys: seq<string>, t: Table)
    ensures SumOf(Map(keys, (k: string) => Slice(k, Get(t, k))), (s: Slice) => s.population) == SumOf(keys, k => Get(t, k))
  {
    if |keys| > 0 {
      var init := keys[..|keys| - 1];
      PopulationsAreGets(init, t);
      assert Map(keys, (k: string) => Slice(k, Get(t, k)))[..|keys| - 1] == Map(init, (k: string) => Slice(k, Get(t, k)));
    }
  }

  // ---------------------------------------------------------------------------
  // The daily bars
  // ---------------------------------------------------------------------------

  /**
   * `transaction.date?.toDate().toLocaleDateString('en-US') || 'N/A'`; the
   * locale formatting is the parameter `dayOf`.
   */
  function DayKey(e: Entry, dayOf: Timestamp -> string): string {
    if e.doc.date.Some? && dayOf(e.doc.date.value) != "" then dayOf(e.doc.date.value) else "N/A"
  }

  function DayKeyOf(dayOf: Timestamp -> string): Entry -> string {
    (e: Entry) => DayKey(e, dayOf)
  }

  /** Dated records whose category is not "Income" (an absent category counts). */
  function InDailyChart(dayOf: Timestamp -> string): Entry -> bool {
    (e: Entry) => DayKey(e, dayOf) != "N/A" && e.doc.category != Some("Income")
  }

  function DailyTotals(filtered: seq<Entry>, dayOf: Timestamp -> string): Table {
    Group(filtered, InDailyChart(dayOf), DayKeyOf(dayOf), Amount)
  }

  /** `(a, b) => new Date(a) - new Date(b)`, with `dayTime` the time a day label parses to. */
  function Chronological(dayTime: string -> int): (string, string) -> bool {
    (a, b) => dayTime(a) <= dayTime(b)
  }

  lemma ChronologicalIsTotalPreorder(dayTime: string -> int)
    ensures TotalPreorder(Chronological(dayTime))
  {
  }

  datatype BarChart = BarChart(labels: seq<string>, data: seq<real>)

  /** The day labels in chronological order: `Object.keys(dailyTotals).sort(...)`. */
  function DailyLabels(filtered: seq<Entry>, dayOf: Timestamp -> string, dayTime: string -> int): (keys: seq<string>)
    ensures forall i, j :: 0 <= i < j < |keys| ==> dayTime(keys[i]) <= dayTime(keys[j])
    ensures multiset(keys) == multiset(Dedup(Map(Filter(filtered, InDailyChart(dayOf)), DayKeyOf(dayOf))))
    ensures |keys| == 0 <==> |Filter(filtered, InDailyChart(dayOf))| == 0
    ensures forall i :: 0 <= i < |keys| ==>
      Get(DailyTotals(filtered, dayOf), keys[i]) == SumWhere(filtered, KeyIs(InDailyChart(dayOf), DayKeyOf(dayOf), keys[i]), Amount)
  {
    ChronologicalIsTotalPreorder(dayTime);
    var keys := Sort(ObjectKeys(Keys(DailyTotals(filtered, dayOf))), Chronological(dayTime));
    DailyKeysFacts(filtered, dayOf, keys, Chronological(dayTime));
    keys
  }

  /** The bar chart: day labels in chronological order with their totals, or a single empty bar. */
  function DailyBars(filtered: seq<Entry>, dayOf: Timestamp -> string, dayTime: string -> int): (r: BarChart)
    ensures |r.labels| == |r.data| > 0
    ensures |Filter(filtered, InDailyChart(dayOf))| == 0 ==> r.labels == ["No Data"] && r.data == [0.0]
    ensures |Filter(filtered, InDailyChart(dayOf))| > 0 ==>
      && (forall i, j :: 0 <= i < j < |r.labels| ==> dayTime(r.labels[i]) <= dayTime(r.labels[j]))
      && multiset(r.labels) == multiset(Dedup(Map(Filter(filtered, InDailyChart(dayOf)), DayKeyOf(dayOf))))
  {
    var keys := DailyLabels(filtered, dayOf, dayTime);
    if |keys| > 0 then BarChart(keys, TotalsOf(DailyTotals(filtered, dayOf), keys)) else BarChart(["No Data"], [0.0])
  }

  /** Each bar is the sum of the amounts of the included records of its day. */
  lemma DailyBarsTotals(filtered: seq<Entry>, dayOf: Timestamp -> string, dayTime: string -> int, i: int)
    requires |Filter(filtered, InDailyChart(dayOf))| > 0
    requires 0 <= i < |DailyBars(filtered, dayOf, dayTime).labels|
    ensures DailyBars(filtered, dayOf, dayTime).data[i]
      == SumWhere(filtered, KeyIs(InDailyChart(dayOf), DayKeyOf(dayOf), DailyBars(filtered, dayOf, dayTime).labels[i]), Amount)
  {
    var keys := DailyLabels(filtered, dayOf, dayTime);
    var t := DailyTotals(filtered, dayOf);
    assert DailyBars(filtered, dayOf, dayTime) == BarChart(keys, TotalsOf(t, keys));
    assert TotalsOf(t, keys)[i] == Get(t, keys[i]);
  }

  /** `labels.map(date => totals[date])`. */
  function TotalsOf(t: Table, keys: seq<string>): (r: seq<real>)
    ensures |r| == |keys|
    ensures forall i :: 0 <= i < |keys| ==> r[i] == Get(t, keys[i])
  {
    Map(keys, (k: string) => Get(t, k))
  }

  lemma DailyKeysFacts(filtered: seq<Entry>, dayOf: Timestamp -> string, keys: seq<string>, le: (string, string) -> bool)
    requires TotalPreorder(le)
    requires keys == Sort(ObjectKeys(Keys(DailyTotals(filtered, dayOf))), le)
    ensures multiset(keys) == multiset(Dedup(Map(Filter(filtered, InDailyChart(dayOf)), DayKeyOf(dayOf))))
    ensures |keys| == 0 <==> |Filter(filtered, InDailyChart(dayOf))| == 0
    ensures forall i :: 0 <= i < |keys| ==>
      Get(DailyTotals(filtered, dayOf), keys[i]) == SumWhere(filtered, KeyIs(InDailyChart(dayOf), DayKeyOf(dayOf), keys[i]), Amount)
  {
    var t := DailyTotals(filtered, dayOf);
    GroupKeys(filtered, InDailyChart(dayOf), DayKeyOf(dayOf), Amount);
    var included := Filter(filtered, InDailyChart(dayOf));
    var m := Map(included, DayKeyOf(dayOf));
    assert |keys| == |multiset(keys)| == |multiset(Keys(t))| == |Keys(t)|;
    if |included| > 0 {
      assert m[0] in Dedup(m);
    }
    forall i | 0 <= i < |keys|
      ensures Get(t, keys[i]) == SumWhere(filtered, KeyIs(InDailyChart(dayOf), DayKeyOf(dayOf), keys[i]), Amount)
    {
      GroupGet(filtered, InDailyChart(dayOf), DayKeyOf(dayOf), Amount, keys[i]);
    }
  }

  // ---------------------------------------------------------------------------
  // Category selection
  // ---------------------------------------------------------------------------

  /** `toggleCategory`: removes every copy of `c` when selected, appends it otherwise. */
  function ToggleCategory(selected: seq<string>, c: string): (r: seq<string>)
    ensures c in r <==> c !in selected
    ensures forall x :: x != c ==> (x in r <==> x in selected)
  {
    if c in selected then Filter(selected, (x: string) => x != c) else selected + [c]
  }

  /** Toggling twice restores which categories are selected. */
  lemma ToggleTwice(selected: seq<string>, c: string)
    ensures forall x :: x in ToggleCategory(ToggleCategory(selected, c), c) <==> x in selected
  {
  }

  /** A selection without repetitions stays without repetitions. */
  lemma ToggleKeepsDistinct(selected: seq<string>, c: string)
    requires Distinct(selected)
    ensures Distinct(ToggleCategory(selected, c))
  {
    if c in selected {
      FilterKeepsDistinct(selected, (x: string) => x != c);
    }
  }

  lemma {:induction false} FilterKeepsDistinct<T>(s: seq<T>, p: T -> bool)
    requires Distinct(s)
    ensures Distinct(Filter(s, p))
  {
    if |s| > 0 {
      var s' := s[..|s| - 1];
      assert Distinct(s');
      FilterKeepsDistinct(s', p);
      assert s[|s| - 1] !in s';
    }
  }

  // ---------------------------------------------------------------------------
  // Editing a transaction
  // ---------------------------------------------------------------------------

  datatype EditForm = EditForm(date: string, supplier: string, total: string, category: string, description: string)

  datatype EditError = NothingSelected | MissingField | InvalidTotal | UpdateFailed

  /** The fields `updateDoc` writes. */
  datatype Update = Update(
    invoiceDate: string, supplierName: string, totalAmount: string, category: string,
    fullText: string, items: seq<Item>, date: Timestamp)

  /**
   * `handleUpdateTransaction`. `midnight` is `Timestamp.fromDate(new Date(s))`
   * for a local date-time text, absent when the date is invalid and the
   * conversion throws.
   */
  function SubmitEdit(selected: bool, signedIn: bool, form: EditForm, midnight: string -> Option<Timestamp>): (r: Result<Update, EditError>)
    ensures r.Ok? ==> form.date != "" && form.supplier != "" && form.total != "" && form.category != ""
    ensures r.Ok? ==> ParseFloat(form.total).Finite? || ParseFloat(form.total).Infinity?
    ensures r.Ok? ==> |r.value.items| == 1 && r.value.items[0].name.Some? && r.value.items[0].name.value != ""
  {
    if !selected || !signedIn then Err(NothingSelected)
    else if form.date == "" || form.supplier == "" || form.total == "" || form.category == "" then Err(MissingField)
    else if ParseFloat(form.total).NaN? then Err(InvalidTotal)
    else match midnight(form.date + "T00:00:00")
      case None => Err(UpdateFailed)
      case Some(ts) =>
        var name := if form.description != "" then form.description else form.category;
        Ok(Update(form.date, form.supplier, form.total, form.category, form.description,
          [Item(Some(name), Some("1"), Some(form.total), Some(form.total))], ts))
  }

  /** An edit is accepted exactly when a record is selected, the user is signed in, the required fields are filled in, the total starts like a number and the date converts. */
  lemma SubmitEditAcceptance(selected: bool, signedIn: bool, form: EditForm, midnight: string -> Option<Timestamp>)
    ensures SubmitEdit(selected, signedIn, form, midnight).Ok? <==>
      && selected && signedIn
      && form.date != "" && form.supplier != "" && form.total != "" && form.category != ""
      && StartsNumeral(Unsigned(TrimStart(form.total)))
      && midnight(form.date + "T00:00:00").Some?
  {
    var r := SubmitEdit(selected, signedIn, form, midnight);
    if selected && signedIn && form.date != "" && form.supplier != "" && form.total != "" && form.category != "" {
      var p := ParseFloat(form.total);
      assert p.NaN? <==> !StartsNumeral(Unsigned(TrimStart(form.total)));
      assert r.Ok? <==> !p.NaN? && midnight(form.date + "T00:00:00").Some?;
    }
  }

  /** `updateDoc`: the written fields replace the record's; nothing else is stored on it. */
  function ApplyUpdate(d: Document, u: Update): (r: Document)
    ensures r.items == u.items && r.totalAmount == Some(u.totalAmount) && r.date == Some(u.date)
  {
    Document(Some(u.date), Some(u.category), Some(u.supplierName), Some(u.fullText), u.items, Some(u.totalAmount), Some(u.invoiceDate))
  }

  /**
   * After an accepted edit the record shows the description that was typed,
   * or the category when none was, and its amount is read from the typed total.
   */
  lemma EditedRecordShowsForm(d: Document, selected: bool, signedIn: bool, form: EditForm, midnight: string -> Option<Timestamp>)
    requires SubmitEdit(selected, signedIn, form, midnight).Ok?
    ensures var e := ApplyUpdate(d, SubmitEdit(selected, signedIn, form, midnight).value);
      && Description(e) == (if form.description != "" then form.description else form.category)
      && HomeEntries([e])[0].parsedAmount == HomeParseAmount(Some(form.total))
      && e.category == Some(form.category) && e.supplierName == Some(form.supplier)
  {
    var e := ApplyUpdate(d, SubmitEdit(selected, signedIn, form, midnight).value);
    DescriptionOfOneItem(e);
  }

  /** Digits alone are read as the integer they spell. */
  lemma HomeReadsDigits(u: string)
    requires AllDigits(u)
    ensures HomeParseAmount(Some(u)) == DigitsValue(u) as real
  {
    FilterAll(u, IsDigitOrSeparator);
    DigitsExclude(u, ',');
    DigitsExclude(u, '.');
    assert HomeNormalize(HomeClean(u)) == u;
    AmountOfDigitText(u);
  }

  /**
   * The edit form accepts a negative total, since `parseFloat` reads it, but
   * the Home screen's `parseAmount` drops the sign: the record is stored as
   * "-n" and counted as +n.
   */
  lemma NegativeTotalCountedPositive(selected: bool, signedIn: bool, form: EditForm, midnight: string -> Option<Timestamp>, n: string)
    requires |n| > 0 && AllDigits(n) && form.total == "-" + n
    requires selected && signedIn && form.date != "" && form.supplier != "" && form.category != ""
    requires midnight(form.date + "T00:00:00").Some?
    ensures SubmitEdit(selected, signedIn, form, midnight).Ok?
    ensures ParseFloat(n) == Finite(DigitsValue(n) as real) && ParseFloat(form.total) == Negate(ParseFloat(n))
    ensures HomeParseAmount(Some(form.total)) == DigitsValue(n) as real
  {
    DigitsParse(n);
    MinusDigitsParse(n);
    NegativeTextCounted(n);
  }

  lemma DigitsParse(n: string)
    requires |n| > 0 && AllDigits(n)
    ensures ParseFloat(n) == Finite(DigitsValue(n) as real)
  {
    assert n + "" == n;
    ParseFloatInteger(n, "");
  }

  lemma MinusDigitsParse(n: string)
    requires |n| > 0 && AllDigits(n)
    ensures ParseFloat("-" + n) == Negate(ParseFloat(n))
  {
    assert IsDigit(n[0]);
    ParseFloatMinus(n);
  }

  lemma NegativeTextCounted(n: string)
    requires AllDigits(n)
    ensures HomeParseAmount(Some("-" + n)) == DigitsValue(n) as real
  {
    FilterAppend("-", n, IsDigitOrSeparator);
    assert Filter("-", IsDigitOrSeparator) == [];
    FilterAll(n, IsDigitOrSeparator);
    assert HomeClean("-" + n) == n;
    ReadsCleanedText("-" + n);
    HomeReadsDigits(n);
  }
}
