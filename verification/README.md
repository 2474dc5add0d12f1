# ExpenseTrackerApp in Dafny

A model of the data logic in ExpenseTrackerApp, a React Native / Firebase expense tracker. The model covers four places.

- **Home screen.** It reads the amount text of every stored transaction with its own `parseAmount`. It filters the list by date range, selected categories and a search text, and adds up the expenses. It builds a category pie and a daily bar chart, toggles category chips, and validates the edit form.
- **Report screen.** It reads amounts with a different `parseAmount` and sorts each snapshot newest first. It filters by category and search text, then sorts by amount. It builds a category pie coloured from a fixed palette, monthly bars, and the list of categories to filter by.
- **Scanner screen.** It turns the n8n workflow's answer for a scanned invoice into a transaction. Missing fields get defaults and the total is recovered. A category the workflow left unsettled is re-computed by the English keyword classifier `categorizeExpense`. The screen also validates the manual-entry form and builds the record it stores.
- **`processReceipt` Cloud Function.** It guards the request and maps every failure inside the workflow call to "internal". It falls back to the Vietnamese keyword classifier when the workflow gives no `ocrResult`, and it stores the transaction.

**Modelling choices**

- Everything is a pure function over immutable datatypes.
- Firestore documents are records whose fields may all be missing (`Option`). A snapshot is a sequence of them.
- The workflow call, the store's writes, the clock, the regular expression the scanner uses to recover a total, and the locale and time-zone functions are parameters of the functions that use them.
- Amounts are exact reals.
- JavaScript `parseFloat` follows section 19.2.4 of ECMA-262: leading StrWhiteSpaceChar is skipped, then a sign, then "Infinity" or the longest decimal numeral prefix with an optional exponent. The result is NaN, ±Infinity or a finite value.
- `Object.keys` follows the property order of section 10.1.11.1 of ECMA-262. Array-index keys come first in ascending order, then the other keys in creation order.
- `Array.prototype.sort` is a stable sort under a consistent comparator. It is modelled by insertion sort, proved to be a sorted permutation and stable.

**Behaviours of the code worth knowing:**

- The Home screen's `parseAmount` replaces only the first comma (`replace(',', '.')`). So "1,234,567" reads as 1.234, and "100,000" reads as 100 on the Home screen but 100000 in the report.
- The two screens read the same stored text differently. "150,000 VND" is 150 on the Home screen and 150000 in the report. "1.234,50" is 1234.5 on the Home screen and 1.2345 in the report.
- The scanner's total recovery is guarded by `totalAmount === "N/A" || totalAmount === "0" && n8nResult.rawText`. This groups as `N/A || (0 && rawText)`; see Findings.

The modules follow the program:

| module | models |
|---|---|
| `JsNumbers` | `parseFloat` and `String.prototype.trimStart` whitespace |
| `JsObjects` | the order of `Object.keys` |
| `Records` | documents, line items, timestamps, JS truthiness (`x \|\| fallback`) and the Home screen's item description |
| `Amounts` | both `parseAmount`s and what they make of grouped numerals |
| `Dates` | `formatDate` |
| `Grouping` | `obj[k] = (obj[k] \|\| 0) + amount` folds |
| `Keywords` | both keyword categorisers |
| `Home`, `Report`, `Scanner` | the three screens |
| `ReceiptFunction` | the Cloud Function |

`Seqs`, `Sorting`, `Strings` and `Wrappers` hold the generic pieces: filter, map, sums, dedup, the stable sort, and string search and splitting.

## Model

| member | source | states |
|---|---|---|
| JsNumbers.TrimStart | screens/HomeScreen.js:47 | the trimmed text is a suffix of the input that does not start with StrWhiteSpaceChar (the whitespace `parseFloat` skips) |
| JsNumbers.TrimStartRemovesWhiteSpace | screens/HomeScreen.js:47 | everything `parseFloat` skips before the numeral is StrWhiteSpaceChar |
| JsNumbers.ParseFloat | screens/HomeScreen.js:47-48 | `parseFloat` gives NaN exactly when the trimmed, unsigned text does not start with "Infinity", a digit, or a period followed by a digit |
| JsNumbers.ParseFloatInteger | screens/ReportScreen.js:28 | a digit run followed by anything that cannot continue a numeral parses to the run's integer value |
| JsNumbers.ParseFloatDecimal | screens/ReportScreen.js:28 | "i.f" followed by a non-numeral tail parses to the decimal value i.f, and to NaN when both digit runs are empty |
| JsNumbers.ParseFloatExponent | screens/ReportScreen.js:28 | "iek" parses to i·10^k: the exponent is read, not dropped |
| JsNumbers.ParseFloatLeadingWhiteSpace | screens/HomeScreen.js:346 | leading whitespace never changes what `parseFloat` reads, so "  12" passes the edit form's number check |
| JsNumbers.ParseFloatMinus | screens/ScannerScreen.js:383 | a leading minus negates the value of the rest, so negative totals pass the manual form's check |
| JsNumbers.ParseFloatOfCommaStart | screens/HomeScreen.js:42-47 | text that starts with a comma, or is empty, is NaN to `parseFloat` |
| JsNumbers.ParseFloatOfPlainText | screens/HomeScreen.js:47-48 | on text that starts with a digit, comma or period, `parseFloat` is NaN or a finite non-negative value, never Infinity |
| JsObjects.KeyLeIsTotalPreorder | screens/ReportScreen.js:127 | the property-key order `Object.keys` uses is total and transitive |
| JsObjects.ObjectKeys | screens/ReportScreen.js:127 | `Object.keys` lists every created key exactly once, array indices first and ascending |
| JsObjects.NamedKeysKeepCreationOrder | screens/ReportScreen.js:120-127 | the keys that are not array indices come out in the order the fold created them |
| JsObjects.ObjectKeysOfNamedKeys | screens/HomeScreen.js:434 | with no array-index key, `Object.keys` is exactly the creation order |
| Records.MillisMonotone | screens/ReportScreen.js:69-71 | `toDate().getTime()` never reverses the order of two timestamps |
| Records.MillisOfWholeSeconds | screens/ReportScreen.js:69-71 | a whole-second timestamp is that many thousand milliseconds, for negative seconds too (truncation toward zero) |
| Records.Load | screens/ReportScreen.js:62-66 | a snapshot yields one entry per document, in order, each holding its document and the amount parsed from its `totalAmount` |
| Records.DescriptionOfOneItem | screens/HomeScreen.js:260-262 | a document with one named item is described by that name |
| Amounts.ParsePlain | screens/HomeScreen.js:47-48 | `isNaN(parsed) ? 0 : parsed` on cleaned text is never negative |
| Amounts.HomeClean | screens/HomeScreen.js:31 | cleaning leaves only digits, commas and periods |
| Amounts.HomeParseAmount | screens/HomeScreen.js:24-49 | the Home screen's amount is never negative, and is 0 for a value that is not a string |
| Amounts.HomeParseAmountValue | screens/HomeScreen.js:33-47 | the parse equals the reference value: the cleaned digits read with the decimal separator chosen by the order of the first comma and first period, the other separator deleted, and the number ending at the second decimal separator |
| Amounts.NormalizedDecimalComma | screens/HomeScreen.js:36-37 | when the first comma follows the first period, the comma is the decimal separator and every period is dropped |
| Amounts.NormalizedDecimalPeriod | screens/HomeScreen.js:38-39 | when the first comma precedes the first period, the period is the decimal separator and every comma is dropped |
| Amounts.NormalizedCommasOnly | screens/HomeScreen.js:41-42 | with commas only, the first comma is the decimal separator |
| Amounts.NormalizedPeriodsOnly | screens/HomeScreen.js:43-44 | with periods only, the text is read unchanged with the first period as the decimal separator |
| Amounts.HomeSeparatorOfGrouped | screens/HomeScreen.js:34-40 | for a thousands-grouped numeral with a decimal part, whichever separator sits between the last group and the fraction is taken as the decimal one |
| Amounts.HomeReadsGroupedNumeral | screens/HomeScreen.js:33-40 | "1.234.567,89" and "1,234,567.89" both read as the groups' digits with the fraction |
| Amounts.HomeReadsCommaGroups | screens/HomeScreen.js:41-42 | with commas only, the parse ends at the second comma: "1,234,567" reads as 1.234 |
| Amounts.ReportClean | screens/ReportScreen.js:20 | cleaning leaves only digits and periods |
| Amounts.ReportParseAmount | screens/ReportScreen.js:13-30 | the Report screen's amount is never negative, and is 0 for a value that is not a string |
| Amounts.ReportNormalizeText | screens/ReportScreen.js:23-26 | with more than one period, the text becomes the digits before the last period without periods, then "." and the digits after it |
| Amounts.ReportNormalizeReads | screens/ReportScreen.js:22-28 | the parse equals the reference value: the digits before the last period, periods deleted, as the whole part and those after it as the fraction |
| Amounts.ReportReadsCommaGroups | screens/ReportScreen.js:19-20 | commas are deleted, so "100,000" reads as 100000 |
| Amounts.ReportReadsPeriodGroups | screens/ReportScreen.js:22-26 | "1.234.567" reads as 1234.567: only the last period is kept |
| Amounts.ReportReadsCommaGroupedNumeral | screens/ReportScreen.js:19-28 | a US-style grouped numeral reads the same on both screens |
| Amounts.ReadsCleanedText | screens/HomeScreen.js:31 | both parsers read text exactly as they read its cleaned form, so currency symbols and letters never matter |
| Amounts.CleanOfSurroundingText | screens/ReportScreen.js:19-20 | a numeral surrounded by non-numeral text is cleaned to the numeral itself, with its commas deleted in the report |
| Amounts.HomeReadsCommaGroupsAmid | screens/HomeScreen.js:31-47 | a comma-grouped numeral amid currency text reads as its first two groups with a decimal point between them on the Home screen |
| Amounts.ReportReadsCommaGroupsAmid | screens/ReportScreen.js:19-28 | a comma-grouped numeral amid currency text reads as all its digits in the report |
| Amounts.ThousandsWithCurrency | screens/HomeScreen.js:41-42 | "150,000 VND" is 150 on the Home screen and 150000 in the report |
| Amounts.DecimalCommaDisagreement | screens/ReportScreen.js:19-26 | "1.234,50" is 1234.5 on the Home screen and 1.2345 in the report |
| Dates.FormatDate | screens/ScannerScreen.js:50-61 | the formatted date is empty exactly when the argument is falsy |
| Dates.Pad2Digits | screens/HomeScreen.js:55-60 | a month or day number is written with exactly two digits that read back as the number |
| Dates.FormatDateRoundTrip | screens/HomeScreen.js:52-63 | the year-MM-DD text of a calendar day reads back as that day |
| Dates.FormatDateOfFourDigitYear | screens/ScannerScreen.js:50-61 | a date with a four-digit year formats to ten characters with dashes at positions 4 and 7 |
| Grouping.Accumulate | screens/ReportScreen.js:120 | adding to a key creates it at the end if it is new, adds the amount to it, leaves every other key unchanged and adds the amount to the grand total |
| Grouping.GroupKeys | screens/HomeScreen.js:419-431 | the fold's keys are the counted records' keys, each once, in first-appearance order |
| Grouping.GroupGet | screens/HomeScreen.js:423 | each key's total is the sum of the amounts of the counted records with that key |
| Grouping.GroupTotal | screens/ReportScreen.js:118-122 | the totals add up to the sum of all counted amounts |
| Grouping.GroupKeysDistinct | screens/ReportScreen.js:118-122 | no key appears twice |
| Grouping.SumOverKeyOrder | screens/ReportScreen.js:127 | summing the totals in any order of the keys, such as the `Object.keys` order, gives the grand total |
| Home.HomeEntries | screens/HomeScreen.js:207-213 | every loaded entry keeps its document and has a non-negative amount |
| Home.FilterTransactionsKeepsPassing | screens/HomeScreen.js:226-272 | the four stages keep exactly the records that pass every active filter, in their original order |
| Home.FilteredIsPassingSublist | screens/HomeScreen.js:227-271 | the filtered list is an order-preserving sublist of all transactions, and a record is in it iff it is a transaction that passes every active filter |
| Home.NoFiltersKeepAll | screens/HomeScreen.js:230-255 | with no dates, no selection and no search text, every record is kept |
| Home.LongerQueryNarrows | screens/HomeScreen.js:255-271 | extending the search text never brings back a record it dropped |
| Home.TotalSpentNonNegative | screens/HomeScreen.js:274-280 | the total of the filtered expenses is never negative |
| Home.TotalSpentIgnoresIncome | screens/HomeScreen.js:277 | an "Income" record never changes the total |
| Home.CategoryPie | screens/HomeScreen.js:419-441 | no slice is "Income"; each slice's value is the sum over its category, with a missing category counted as "Other"; each pie category appears exactly once |
| Home.PieAddsUpToTotal | screens/HomeScreen.js:274-280 | the slices add up to the expense total plus the uncategorised records, which the pie files under "Other" but the total skips |
| Home.ChronologicalIsTotalPreorder | screens/HomeScreen.js:445 | the day comparator is a consistent ordering |
| Home.DailyLabels | screens/HomeScreen.js:427-447 | the day keys are in chronological order, each dated non-Income day appears once, and each day's total is the sum over that day |
| Home.DailyBars | screens/HomeScreen.js:445-456 | labels and values have equal, positive length; with no data the chart is ["No Data"] / [0], otherwise its labels are the days in chronological order |
| Home.DailyBarsTotals | screens/HomeScreen.js:446-452 | each bar is the sum of that day's non-Income amounts |
| Home.ToggleCategory | screens/HomeScreen.js:287-293 | the toggled category is selected iff it was not, and every other category keeps its membership |
| Home.ToggleTwice | screens/HomeScreen.js:287-293 | toggling the same category twice restores the selection's membership |
| Home.ToggleKeepsDistinct | screens/HomeScreen.js:287-293 | toggling never duplicates a selected category |
| Home.SubmitEdit | screens/HomeScreen.js:334-372 | an accepted edit has the four required fields, a total `parseFloat` can read, and one named item |
| Home.SubmitEditAcceptance | screens/HomeScreen.js:336-349 | an edit is accepted iff a transaction is selected, someone is signed in, the four fields are filled in, the total starts like a number and the date parses |
| Home.ApplyUpdate | screens/HomeScreen.js:356-372 | the updated document holds the new items, total and date |
| Home.EditedRecordShowsForm | screens/HomeScreen.js:356-372 | after an edit the record is described by the description (or else the category), and its amount, category and supplier are the form's |
| Home.HomeReadsDigits | screens/HomeScreen.js:24-49 | a plain digit string is read as its integer value |
| Home.NegativeTotalCountedPositive | screens/HomeScreen.js:31 | "-50" passes the edit form as a negative number but is then counted as +50, because cleaning deletes the minus |
| Report.ReportEntries | screens/ReportScreen.js:60-66 | every loaded entry keeps its document and has a non-negative amount |
| Report.NewestFirstIsTotalPreorder | screens/ReportScreen.js:68-72 | the date comparator is a consistent ordering |
| Report.Snapshot | screens/ReportScreen.js:60-72 | the sorted snapshot is a permutation of the loaded entries, newest first |
| Report.SnapshotStable | screens/ReportScreen.js:68-72 | records with equal times keep their snapshot order |
| Report.UndatedAfterLaterRecords | screens/ReportScreen.js:69-70 | an undated record counts as the epoch, so it sorts after every record dated later than 1970 |
| Report.SomeItemNamedAgrees | screens/ReportScreen.js:98 | when every item has a name, the item test never throws and answers whether some item name contains the query |
| Report.SearchAgreesWhenNamed | screens/ReportScreen.js:95-101 | when every item has a name, the search as written never throws and agrees with the intended test |
| Report.SearchHitWhenItReturns | screens/ReportScreen.js:96-101 | whenever the search as written returns, its answer is the intended one |
| Report.UnnamedItemThrows | screens/ReportScreen.js:98 | a record whose first item has no name makes the search throw |
| Report.ByAmountIsTotalPreorder | screens/ReportScreen.js:105-111 | the amount comparator is a consistent ordering in both directions |
| Report.ReportView | screens/ReportScreen.js:86-113 | the list is sorted by amount in the chosen direction |
| Report.ReportViewContents | screens/ReportScreen.js:89-101 | the list is a permutation of the records that match the category filter ("All" matches everything, a picked `undefined` matches the uncategorised records) and the search |
| Report.NarrowedIsPassing | screens/ReportScreen.js:89-101 | the category filter followed by the search keeps exactly the records passing both, in their order |
| Report.ReportViewStable | screens/ReportScreen.js:89-111 | whatever the filters, passing records with equal amounts keep their snapshot order |
| Report.ColoredSlices | screens/ReportScreen.js:127-137 | the i-th slice is the i-th key with its total and the palette colour at i mod 10 |
| Report.PieData | screens/ReportScreen.js:116-139 | every slice is positive, totals its category's expenses and names a category that occurs among them; against the `Object.keys` order of the totals, each slice has the colour `colors[k % 10]` of its key's position k before zero totals are dropped, the slices follow key order, and every key with a positive total has a slice |
| Report.PositiveSlicesFollowKeys | screens/ReportScreen.js:127-138 | dropping the zero slices of the coloured keys keeps key order and each key's colour, and loses no positive key |
| Report.PieHasNoIncome | screens/ReportScreen.js:119 | no slice is "Income" |
| Report.PieAddsUpToExpenses | screens/ReportScreen.js:116-138 | for non-negative amounts, dropping the zero slices loses nothing: the slices add up to the non-Income total |
| Report.LexLeIsTotalPreorder | screens/ReportScreen.js:150 | the default string order of `sort()` is a consistent ordering |
| Report.MonthLabelOfIsoMonth | screens/ReportScreen.js:151-154 | "YYYY-MM" is labelled "MM/YY" |
| Report.SortedMonths | screens/ReportScreen.js:141-150 | the month keys are ascending, and each dated non-Income month appears exactly once |
| Report.MonthlyBars | screens/ReportScreen.js:150-156 | there is one label per sorted month, and each label is that month's label |
| Report.MonthlyBarsTotals | screens/ReportScreen.js:142-155 | each bar is the sum of that month's non-Income amounts |
| Report.AvailableCategories | screens/ReportScreen.js:190 | the list is "All" followed by distinct values; each is the category of some non-Income record, and every non-Income record's category is listed |
| Report.AvailableCategoriesInFirstAppearance | screens/ReportScreen.js:190 | the categories after "All" come in order of first appearance |
| Report.PickerChoiceShowsItsRecords | screens/ReportScreen.js:89-92 | every picker button after "All", including the `undefined` one a category-less record adds, shows at least one record and only records of its category (a category literally named "All" shows everything) |
| Report.CategoryNamedAllListedTwice | screens/ReportScreen.js:190 | a category actually named "All" is listed a second time after the leading "All" |
| Keywords.FirstRule | screens/ScannerScreen.js:13-38 | the chosen rule is the first whose keywords the text mentions |
| Keywords.MentionsIff | screens/ScannerScreen.js:15-17 | a rule matches iff the text contains one of its keywords |
| Keywords.ClassifyByFirstRule | screens/ScannerScreen.js:13-41 | a classifier answers the first matching rule's category, or the fallback when no rule matches |
| Keywords.FirstRuleInContext | functions/index.js:18-41 | adding text around a text never moves the first matching rule later |
| Keywords.CategorizeExpense | screens/ScannerScreen.js:13-42 | the English classifier always answers one of the manual-entry categories, never "Income", "Uncategorized" or "" |
| Keywords.CategorizeExpenseIgnoresCase | screens/ScannerScreen.js:14 | the English classifier ignores letter case |
| Keywords.CategorizeExpenseByRule | screens/ScannerScreen.js:15-37 | a keyword of a rule decides the category when no earlier rule matches |
| Keywords.CategorizeExpenseFallback | screens/ScannerScreen.js:39-41 | without any keyword the category is "Other" |
| Keywords.FoodKeywordWins | screens/ScannerScreen.js:15-18 | any food keyword decides "Food & Dining", whatever else the text mentions ("coffee taxi") |
| Keywords.CategorizeVietnamese | functions/index.js:18-41 | the Vietnamese classifier always answers one of its six categories |
| Keywords.CategorizeVietnameseIgnoresCase | functions/index.js:19 | the Vietnamese classifier ignores letter case |
| Keywords.CategorizeVietnameseByRule | functions/index.js:20-38 | a keyword of a rule decides the category when no earlier rule matches |
| Keywords.CategorizeVietnameseOfEmpty | functions/index.js:40 | the empty text is "Khác" |
| Scanner.ItemsOf | screens/ScannerScreen.js:291-300 | one item per line item, each named by its description or "Unknown Item"; a missing or non-array list gives none |
| Scanner.Defaulted | screens/ScannerScreen.js:281-300 | each of the ten fields that is missing or empty becomes "N/A" (the category "Other"), and every other field is kept |
| Scanner.Recovered | screens/ScannerScreen.js:307-310 | a recovered total is made of digits and periods; without a match the total is unchanged |
| Scanner.RecoverTotal | screens/ScannerScreen.js:305-311 | a total other than "N/A" and "0" is kept, a missing raw text keeps the total, and a changed total is digits and periods |
| Scanner.RecoverTotalAsWrittenThrows | screens/ScannerScreen.js:306-307 | the guard as written throws exactly when the total is "N/A" and the workflow gave no raw text |
| Scanner.RecoveryThrowsWithoutText | screens/ScannerScreen.js:306-307 | an answer without any field throws in the guard as written, while the corrected recovery leaves the total "N/A" |
| Scanner.RecoverTotalAgrees | screens/ScannerScreen.js:305-311 | whenever the guard as written does not throw, it recovers what the corrected one does |
| Scanner.SettleCategory | screens/ScannerScreen.js:313-317 | a category other than "Uncategorized"/"Other" is kept; otherwise it is the English classifier's category of the assembled text |
| Scanner.Extract | screens/ScannerScreen.js:281-332 | the invoice's raw text is assembled from the defaulted fields, its total is the recovered total, its category is settled and never "Uncategorized", and every item has a name |
| Scanner.MissingCategoryRecategorised | screens/ScannerScreen.js:281 | a missing category is always re-computed by the classifier |
| Scanner.SettledCategoryKept | screens/ScannerScreen.js:314 | a category the workflow settled is kept |
| Scanner.FoodSupplierIsFoodAndDining | screens/ScannerScreen.js:303-316 | when the category is re-computed, a food keyword in the supplier's name gives "Food & Dining" |
| Scanner.ImageExcerpt | screens/ScannerScreen.js:355 | the stored excerpt is at most 203 characters and begins with a prefix of the image |
| Scanner.ScannedTransaction | screens/ScannerScreen.js:339-356 | the stored scan has the uid, the assembled raw text as full text, and the invoice's total, category and items |
| Scanner.ProcessImage | screens/ScannerScreen.js:237-371 | the placeholder URL stops before any call; a failed call offers manual entry; an answer is processed, and stored iff someone is signed in |
| Scanner.FailedScanOffersManualEntry | screens/ScannerScreen.js:362-367 | after a failure the manual form has today's date, and the failure note exactly when there was an image |
| Scanner.MissingOutputIsAllDefaults | screens/ScannerScreen.js:275 | with the intended total recovery, an answer without `output` is processed with every field defaulted and the category computed locally (as written it never gets that far: see Scanner.MissingOutputOffersManualEntry) |
| Scanner.ExtractAsWritten | screens/ScannerScreen.js:281-332 | building the invoice with the recovery as written fails exactly for a missing total without raw text, and otherwise gives the invoice `Scanner.Extract` gives |
| Scanner.ProcessImageAsWritten | screens/ScannerScreen.js:237-371 | as written, a failed call or a throwing extraction opens the manual form; every other outcome is the one `Scanner.ProcessImage` gives |
| Scanner.MissingOutputOffersManualEntry | screens/ScannerScreen.js:275-307 | as written, every answer without `output` ends in the manual form, with today's date and the note exactly when there was an image |
| Scanner.ScannedRecordSearchable | screens/ScannerScreen.js:291-300 | the report search never throws on a scanned record, because every stored item has a name |
| Scanner.SubmitManual | screens/ScannerScreen.js:373-400 | an accepted entry has the four fields filled in, a readable total, the signer's uid and one named item; nobody signed in is refused first |
| Scanner.ManualAcceptance | screens/ScannerScreen.js:374-386 | an entry is stored iff someone is signed in, the four fields are filled in and the total starts like a number |
| Scanner.ManualErrorOrder | screens/ScannerScreen.js:374-386 | sign-in is checked first, then the required fields, then the total |
| Scanner.ManualRecordShape | screens/ScannerScreen.js:387-398 | an accepted entry stores the typed fields and one item named by the description or else the category, with quantity "1" and its price the total |
| Scanner.ManualRecordFoundByCategory | screens/ScannerScreen.js:387-396 | the report search finds a manual entry by its category through the stored full text |
| ReceiptFunction.OcrResultOf | functions/index.js:99-104 | a supplied `ocrResult` is used verbatim; otherwise the total defaults to "N/A", the category is the workflow's or else the Vietnamese classifier's, items default to [] and the text to the placeholder |
| ReceiptFunction.ProcessReceipt | functions/index.js:44-135 | without auth the call is unauthenticated; a success needs auth, an image, a configured URL, an answer and a write, and its record carries the caller's uid |
| ReceiptFunction.GuardOrder | functions/index.js:46-70 | the guards apply in order: sign-in, then the image, then the configured URL |
| ReceiptFunction.ShippedUrlNeverReachesWorkflow | functions/index.js:63-70 | with the URL as shipped, every call ends before the workflow, and never as "internal" |
| ReceiptFunction.FailuresInsideAreInternal | functions/index.js:72-133 | past the guards every failure is "internal", and the call succeeds iff the workflow answers and the write succeeds |
| ReceiptFunction.StoredMatchesReply | functions/index.js:107-115 | the stored record copies the reply's text, total, items and category under the caller's uid |
| ReceiptFunction.FallbackCategory | functions/index.js:99-104 | without an `ocrResult` the category is the workflow's or else one of the Vietnamese categories |
| ReceiptFunction.EmptyBodyIsOther | functions/index.js:99-104 | a body with neither category nor text is filed under "Khác" with the placeholder text |
| ReceiptFunction.UnnamedReceiptItemBreaksReportSearch | functions/index.js:107-115 | the function stores the workflow's items unchecked, so a stored receipt can make the report search throw |
| Sorting.Sort | screens/ReportScreen.js:68-72 | sorting yields a permutation of its input, ordered by the comparator |
| Sorting.SortStable | screens/ReportScreen.js:105-111 | records that compare equal keep their relative order |

## Left out

- IEEE-754 doubles: amounts, `parseFloat` results and the `+=` sums are exact reals. Rounding, overflow to Infinity and negative zero are not modelled.
- `toLowerCase` is modelled for ASCII, Latin-1 and the Vietnamese letters; other letters are left unchanged.
- Locale and time zones are function parameters:
  - `toLocaleDateString` for the day key (`dayOf`);
  - `new Date(label)` for the day order (`dayTime`, which also stands in for a NaN comparison);
  - `toISOString().substring(0, 7)` for the month key (`isoMonth`);
  - `Timestamp.fromDate(new Date(date + 'T00:00:00'))` for the edited date (`midnight`);
  - `Number.prototype.toString` for the amount search (`numberText`);
  - `new Date()` for the manual form's date (`today`).
- The date filter's start and end bounds are given as seconds, because `setHours` works in local time.
- `Date` time clipping and invalid dates are out of scope beyond what `formatDate` does with an invalid date.
- The JS sort compares UTF-16 code units, and `LexLe` compares characters. They differ only outside the Basic Multilingual Plane.
- The Home pie's colours come from `Math.random` and are not modelled.
- UI, navigation, alerts, loading flags, `AuthScreen.js`, `firebaseConfig.js` and `App.js` are rendering or SDK wiring.
- Firestore I/O (`onSnapshot`, `addDoc`, `updateDoc`, `deleteDoc`, `serverTimestamp`):
  - a snapshot is an input sequence;
  - a write's outcome is a parameter of the Cloud Function;
  - the stored time is a parameter when a stored record is read back.
- Firestore rejecting `undefined` fields is not modelled.
- Field values that are neither strings nor missing (numbers, booleans, objects, `null`) are outside the model, where each field is a string or `None`. On such values the code throws where it calls a string method: `toLowerCase` at screens/HomeScreen.js:258-259 and screens/ReportScreen.js:98-100, `rawText.match` at screens/ScannerScreen.js:307, `text.toLowerCase()` at functions/index.js:19 (reached from line 101), and `base64Image.substring` at functions/index.js:114.
- Report.PieKey: a `null` category becomes the key "null" in the Report pie (screens/ReportScreen.js:120), not "undefined"; `null` is outside the model.
- Scanner.ScannedRecordSearchable: holds only for string descriptions, because `item.description || "Unknown Item"` (screens/ScannerScreen.js:295) keeps a numeric one, on which the report search throws.
- Grouping.Accumulate: does not model that the folds at screens/HomeScreen.js:423 and screens/ReportScreen.js:120 write into a plain `{}` whose prototype is `Object.prototype`, because categories are modelled as data keys only. A category named after an inherited member ("constructor", "toString", "valueOf", "hasOwnProperty" and so on) starts from that function rather than 0, so its total becomes a string and the Report's `population > 0` (screens/ReportScreen.js:138) drops it. A category named "__proto__" goes through the prototype setter and creates no key. Grouping.GroupGet, Grouping.GroupKeys, Home.CategoryPie, Report.PieData and Report.PieAddsUpToExpenses hold only for categories that name no `Object.prototype` property.
- `openEditModal` (screens/HomeScreen.js:296-319) only copies a record into the form, and the delete handler (screens/HomeScreen.js:386-412) only deletes a document. Neither transforms data.
- The scanner's "Save Transaction" button (screens/ScannerScreen.js:445-468) writes the shown invoice a second time. It is store I/O, not modelled.
- The regular expression of the total recovery (screens/ScannerScreen.js:307) is the parameter `totalMatch`, which returns the matched digits or nothing. No regex engine is modelled.
- Within the scanner:
  - `n8nResultRaw` being something other than an array is not modelled;
  - the dead `!n8nResult` check (screens/ScannerScreen.js:276) is left out, because `|| {}` makes it unreachable;
  - a failed `fetch`, a failed `.json()` and any other exception are one `Failed` answer;
  - a failing `addDoc` after a successful scan, which also lands in the handler, is not modelled.
- Image picking and compression, and the base64 encoding of the image, are device I/O.
- The document id a write returns is a parameter (`docId`); the scanner does not use it.
- Scanner.ProcessImage uses the corrected total recovery (`Scanner.RecoverTotal`). The as-written processing is `Scanner.ProcessImageAsWritten`, where a throwing guard opens the manual form; the two agree wherever that one does not throw (see Findings).
- Report.ReportView searches with the intended item test, which never throws. The as-written search is `Report.SearchAsWritten`, and the two are related by `Report.SearchAgreesWhenNamed` and `Report.SearchHitWhenItReturns`.

## Findings

| source | as written | input that shows it | evidently intended | confidence | as-written member | corrected member |
|---|---|---|---|---|---|---|
| screens/ReportScreen.js:98 | `t.items.some(item => item.name.toLowerCase()...)` reads `name` of every item unchecked | a non-empty search over a receipt stored by the Cloud Function whose workflow returned `items: [{}]` (functions/index.js:111 stores items as they come) | an item without a name does not match, as on the Home screen, where `join` turns a missing name into "" | high, not executed | Report.UnnamedItemThrows (with ReceiptFunction.UnnamedReceiptItemBreaksReportSearch) | Report.SearchAgreesWhenNamed (Report.ReportView uses Report.SearchHit) |
| screens/ScannerScreen.js:306-307 | `totalAmount === "N/A" \|\| totalAmount === "0" && n8nResult.rawText` groups as `N/A \|\| (0 && rawText)`, then calls `n8nResult.rawText.match` | a workflow answer with neither `total_amount` nor `rawText`: `.match` of undefined throws, and a successful scan ends in the manual-entry fallback | recover only when the total is missing or "0" and a raw text exists | high, not executed | Scanner.RecoverTotalAsWrittenThrows (with Scanner.RecoveryThrowsWithoutText and Scanner.MissingOutputOffersManualEntry) | Scanner.RecoverTotalAgrees (Scanner.Extract and Scanner.ProcessImage use Scanner.RecoverTotal) |
