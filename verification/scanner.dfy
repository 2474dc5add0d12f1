/**
 * The Scanner screen: what it makes of the n8n workflow's answer for a
 * scanned invoice (field defaults, total recovery, local re-categorisation,
 * the transaction it stores) and the manual-entry form it falls back to.
 * The workflow call, the regular expression and the clock are parameters.
 */
module Scanner {
  import opened Wrappers
  import opened Seqs
  import opened Strings
  import opened JsNumbers
  import opened Records
  import opened Keywords
  import opened Amounts
  import opened Dates
  import Report

  // ---------------------------------------------------------------------------
  // The workflow's answer and its defaults
  // ---------------------------------------------------------------------------

  /** One entry of `line_items`; each field may be missing. */
  datatype OcrItem = OcrItem(description: Option<string>, quantity: Option<string>, unitPrice: Option<string>, itemTotal: Option<string>)

  /**
   * `n8nResultRaw[0]?.output`: the invoice fields the workflow extracted.
   * `lineItems` is `None` when `line_items` is missing or not an array.
   */
  datatype OcrOutput = OcrOutput(
    category: Option<string>,
    supplierName: Option<string>,
    supplierAddress: Option<string>,
    supplierPhone: Option<string>,
    invoiceDate: Option<string>,
    invoiceNumber: Option<string>,
    totalAmount: Option<string>,
    subtotal: Option<string>,
    taxAmount: Option<string>,
    paymentMethod: Option<string>,
    lineItems: Option<seq<OcrItem>>,
    rawText: Option<string>)

  /** `{}`: what `|| {}` substitutes for a missing `output`. */
  const NoOutput := OcrOutput(None, None, None, None, None, None, None, None, None, None, None, None)

  /** The text that stands for a field the workflow did not fill in. */
  const Missing := "N/A"

  /** A line item with its defaults applied. */
  function ItemOf(it: OcrItem): (r: Item)
    ensures r.name.Some? && r.name.value != ""
    ensures Truthy(it.description) ==> r.name == it.description
    ensures !Truthy(it.description) ==> r.name == Some("Unknown Item")
  {
    Item(Some(OrElse(it.description, "Unknown Item")), Some(OrElse(it.quantity, Missing)),
      Some(OrElse(it.unitPrice, Missing)), Some(OrElse(it.itemTotal, Missing)))
  }

  /** The items the screen keeps: one per line item, none when `line_items` is not an array. */
  function ItemsOf(lineItems: Option<seq<OcrItem>>): (r: seq<Item>)
    ensures lineItems.None? ==> r == []
    ensures lineItems.Some? ==> |r| == |lineItems.value|
    ensures lineItems.Some? ==> forall i :: 0 <= i < |r| ==> r[i] == ItemOf(lineItems.value[i])
    ensures Report.AllItemsNamed(r)
  {
    match lineItems
    case None => []
    case Some(s) => Map(s, ItemOf)
  }

  /** `name + " x" + quantity + " @" + unitPrice + " = " + itemTotal`. */
  function ItemLine(it: Item): string {
    it.name.GetOr("undefined") + " x" + it.quantity.GetOr("undefined") + " @" + it.unitPrice.GetOr("undefined")
      + " = " + it.itemTotal.GetOr("undefined")
  }

  /** The fields of `finalOcrResult`, all of them text. */
  datatype Invoice = Invoice(
    supplierName: string,
    supplierAddress: string,
    supplierPhone: string,
    invoiceDate: string,
    invoiceNumber: string,
    total: string,
    subtotal: string,
    taxAmount: string,
    paymentMethod: string,
    category: string,
    items: seq<Item>,
    rawText: string)

  /** The defaulted fields, before the total is recovered and the category revisited. */
  function Defaulted(o: OcrOutput): (r: Invoice)
    ensures r.supplierName != "" && r.supplierAddress != "" && r.supplierPhone != ""
    ensures r.invoiceDate != "" && r.invoiceNumber != "" && r.total != ""
    ensures r.subtotal != "" && r.taxAmount != "" && r.paymentMethod != "" && r.category != ""
    ensures Truthy(o.supplierName) ==> r.supplierName == o.supplierName.value
    ensures !Truthy(o.supplierName) ==> r.supplierName == Missing
    ensures Truthy(o.totalAmount) ==> r.total == o.totalAmount.value
    ensures !Truthy(o.totalAmount) ==> r.total == Missing
    ensures Truthy(o.category) ==> r.category == o.category.value
    ensures !Truthy(o.category) ==> r.category == "Other"
    ensures r.items == ItemsOf(o.lineItems)
    ensures r.supplierAddress == (if Truthy(o.supplierAddress) then o.supplierAddress.value else Missing)
    ensures r.supplierPhone == (if Truthy(o.supplierPhone) then o.supplierPhone.value else Missing)
    ensures r.invoiceDate == (if Truthy(o.invoiceDate) then o.invoiceDate.value else Missing)
    ensures r.invoiceNumber == (if Truthy(o.invoiceNumber) then o.invoiceNumber.value else Missing)
    ensures r.subtotal == (if Truthy(o.subtotal) then o.subtotal.value else Missing)
    ensures r.taxAmount == (if Truthy(o.taxAmount) then o.taxAmount.value else Missing)
    ensures r.paymentMethod == (if Truthy(o.paymentMethod) then o.paymentMethod.value else Missing)
  {
    var inv := Invoice(
      OrElse(o.supplierName, Missing), OrElse(o.supplierAddress, Missing), OrElse(o.supplierPhone, Missing),
      OrElse(o.invoiceDate, Missing), OrElse(o.invoiceNumber, Missing), OrElse(o.totalAmount, Missing),
      OrElse(o.subtotal, Missing), OrElse(o.taxAmount, Missing), OrElse(o.paymentMethod, Missing),
      OrElse(o.category, "Other"), ItemsOf(o.lineItems), "");
    inv.(rawText := RawText(inv))
  }

  /**
   * The text the screen assembles from the extracted fields, for categorising
   * and storing: the supplier's name with the other fields labelled around it.
   */
  function RawText(inv: Invoice): string {
    BeforeSupplier(inv) + inv.supplierName + AfterSupplier(inv)
  }

  function BeforeSupplier(inv: Invoice): string {
    "Category: " + inv.category + "\nSupplier: "
  }

  function AfterSupplier(inv: Invoice): string {
    " (" + inv.supplierAddress + ", " + inv.supplierPhone + ")\nDate: " + inv.invoiceDate
      + "\nInvoice #: " + inv.invoiceNumber + "\nTotal: " + inv.total + "\nSubtotal: " + inv.subtotal
      + "\nTax: " + inv.taxAmount + "\nPayment: " + inv.paymentMethod
      + "\nItems: " + Join(Map(inv.items, ItemLine), ", ")
  }

  // ---------------------------------------------------------------------------
  // Total recovery
  // ---------------------------------------------------------------------------

  /**
   * The text found by the total regular expression, cleaned as
   * `replace(/[^0-9.]/g, '')`, or the total unchanged when nothing is found.
   * `found` is the second capture group, `None` without a match.
   */
  function Recovered(total: string, found: Option<string>): (r: string)
    ensures Truthy(found) ==> DigitsAndPeriods(r)
    ensures !Truthy(found) ==> r == total
  {
    if Truthy(found) then ReportClean(found.value) else total
  }

  /**
   * The recovery as written: `total === "N/A" || total === "0" && rawText`
   * groups as `"N/A" || ("0" && rawText)`, so a missing total with no
   * `rawText` calls `match` on undefined and throws (`None`).
   */
  function RecoverTotalAsWritten(total: string, rawText: Option<string>, totalMatch: string -> Option<string>): Option<string> {
    if total == Missing || (total == "0" && Truthy(rawText)) then
      match rawText
      case None => None
      case Some(t) => Some(Recovered(total, totalMatch(t)))
    else Some(total)
  }

  /**
   * The recovery as intended: a missing or zero total is looked up in
   * `rawText` when there is one, and left alone otherwise.
   */
  function RecoverTotal(total: string, rawText: Option<string>, totalMatch: string -> Option<string>): (r: string)
    ensures total != Missing && total != "0" ==> r == total
    ensures !Truthy(rawText) ==> r == total
    ensures r != total ==> DigitsAndPeriods(r)
  {
    if (total == Missing || total == "0") && Truthy(rawText) then Recovered(total, totalMatch(rawText.value))
    else total
  }

  /** A workflow answer with neither a total nor a `rawText` makes the written recovery throw. */
  lemma RecoveryThrowsWithoutText(totalMatch: string -> Option<string>)
    ensures RecoverTotalAsWritten(Defaulted(NoOutput).total, NoOutput.rawText, totalMatch).None?
    ensures RecoverTotal(Defaulted(NoOutput).total, NoOutput.rawText, totalMatch) == Missing
  {
  }

  /**
   * Whenever the written recovery does not throw it agrees with the intended
   * one, given that the empty text holds no total.
   */
  lemma RecoverTotalAgrees(total: string, rawText: Option<string>, totalMatch: string -> Option<string>)
    requires totalMatch("").None?
    requires RecoverTotalAsWritten(total, rawText, totalMatch).Some?
    ensures RecoverTotalAsWritten(total, rawText, totalMatch) == Some(RecoverTotal(total, rawText, totalMatch))
  {
  }

  /** The written recovery throws exactly when the total is missing and there is no `rawText`. */
  lemma RecoverTotalAsWrittenThrows(total: string, rawText: Option<string>, totalMatch: string -> Option<string>)
    ensures RecoverTotalAsWritten(total, rawText, totalMatch).None? <==> total == Missing && rawText.None?
  {
  }

  // ---------------------------------------------------------------------------
  // Re-categorisation and the processed invoice
  // ---------------------------------------------------------------------------

  /** The answers the screen does not trust as a category. */
  predicate Unsettled(category: string) {
    category == "Uncategorized" || category == "Other"
  }

  /** The category kept: the workflow's, unless it is unsettled, then the local categoriser's. */
  function SettleCategory(category: string, rawText: string): (r: string)
    ensures !Unsettled(category) ==> r == category
    ensures Unsettled(category) ==> r in ExpenseCategories && r == CategorizeExpense(rawText)
    ensures r != "Uncategorized"
  {
    if Unsettled(category) then CategorizeExpense(rawText) else category
  }

  /** `finalOcrResult`. */
  function Extract(o: OcrOutput, totalMatch: string -> Option<string>): (r: Invoice)
    ensures r.rawText == RawText(Defaulted(o))
    ensures r.total == RecoverTotal(Defaulted(o).total, o.rawText, totalMatch)
    ensures r.category == SettleCategory(Defaulted(o).category, r.rawText)
    ensures r.category != "" && r.category != "Uncategorized"
    ensures Report.AllItemsNamed(r.items)
  {
    var d := Defaulted(o);
    var total := RecoverTotal(d.total, o.rawText, totalMatch);
    d.(total := total, category := SettleCategory(d.category, d.rawText))
  }

  /** A missing category always goes to the local categoriser, which reads the assembled text. */
  lemma MissingCategoryRecategorised(o: OcrOutput, totalMatch: string -> Option<string>)
    requires !Truthy(o.category)
    ensures Extract(o, totalMatch).category == CategorizeExpense(Extract(o, totalMatch).rawText)
    ensures Extract(o, totalMatch).category in ExpenseCategories
  {
  }

  /** Any other category than "Other" or "Uncategorized" from the workflow is kept as it is. */
  lemma SettledCategoryKept(o: OcrOutput, totalMatch: string -> Option<string>)
    requires Truthy(o.category) && !Unsettled(o.category.value)
    ensures Extract(o, totalMatch).category == o.category.value
  {
  }

  /**
   * When the category is recomputed, a food keyword in the supplier's name
   * decides "Food & Dining", whatever else the assembled text mentions.
   */
  lemma FoodSupplierIsFoodAndDining(o: OcrOutput, totalMatch: string -> Option<string>, k: nat)
    requires !Truthy(o.category) || Unsettled(o.category.value)
    requires Truthy(o.supplierName)
    requires k < |EnglishRules[0].keywords| && Contains(ToLower(o.supplierName.value), EnglishRules[0].keywords[k])
    ensures Extract(o, totalMatch).category == "Food & Dining"
  {
    var d := Defaulted(o);
    var p, q := BeforeSupplier(d), AfterSupplier(d);
    ToLowerAppend(p + d.supplierName, q);
    ToLowerAppend(p, d.supplierName);
    ContainsInContext(ToLower(p), ToLower(d.supplierName), ToLower(q), EnglishRules[0].keywords[k]);
    FoodKeywordWins(d.rawText, k);
  }

  // ---------------------------------------------------------------------------
  // Stored transactions
  // ---------------------------------------------------------------------------

  /** The invoice details only a scanned transaction carries. */
  datatype InvoiceDetails = InvoiceDetails(
    supplierAddress: string, supplierPhone: string, invoiceNumber: string,
    subtotal: string, taxAmount: string, paymentMethod: string)

  /** The document the screen adds to `transactions`; the server timestamp is set by the store. */
  datatype Transaction = Transaction(
    userId: string,
    supplierName: string,
    invoiceDate: string,
    totalAmount: string,
    category: string,
    fullText: string,
    items: seq<Item>,
    receiptImage: string,
    details: Option<InvoiceDetails>)

  /** The stored transaction as the screens read it back, with the time the store gave it. */
  function AsDocument(t: Transaction, date: Timestamp): (r: Document)
    ensures r.items == t.items && r.category == Some(t.category) && r.totalAmount == Some(t.totalAmount)
  {
    Document(Some(date), Some(t.category), Some(t.supplierName), Some(t.fullText), t.items, Some(t.totalAmount), Some(t.invoiceDate))
  }

  /** `s.substring(0, 200) + "..."`. */
  function ImageExcerpt(image: string): (r: string)
    ensures |r| <= 203 && |r| == (if |image| < 200 then |image| else 200) + 3
    ensures r[..|r| - 3] <= image
  {
    (if |image| < 200 then image else image[..200]) + "..."
  }

  /** The transaction stored for a processed invoice. */
  function ScannedTransaction(uid: string, inv: Invoice, image: string): (r: Transaction)
    ensures r.userId == uid && r.fullText == inv.rawText && r.totalAmount == inv.total
    ensures r.category == inv.category && r.items == inv.items && r.details.Some?
  {
    Transaction(uid, inv.supplierName, inv.invoiceDate, inv.total, inv.category, inv.rawText, inv.items,
      ImageExcerpt(image),
      Some(InvoiceDetails(inv.supplierAddress, inv.supplierPhone, inv.invoiceNumber, inv.subtotal, inv.taxAmount, inv.paymentMethod)))
  }

  // ---------------------------------------------------------------------------
  // Processing a scan
  // ---------------------------------------------------------------------------

  /** The placeholder URL the screen refuses to call. */
  const PlaceholderUrl := "YOUR_N8N_WEBHOOK_URL_HERE"

  /**
   * What the workflow call yields: a failure to reach it or to read its body
   * (an exception), a non-OK status, or the first answer's `output` (`None`
   * when the array is empty or its first element has no `output`).
   */
  datatype Response = Failed | HttpError(status: int) | Answered(output: Option<OcrOutput>)

  /** The message the manual form is opened with after a failed scan of an image. */
  const ScanFailedNote := "OCR scan failed. Please enter details manually."

  datatype ScanOutcome =
    | ConfigurationError
    | WorkflowError(status: int)
    /** The exception handler: the manual form, its date and description filled in. */
    | ManualEntryOffered(date: string, description: string)
    /** The invoice shown, and the transaction stored when someone is signed in. */
    | Processed(invoice: Invoice, stored: Option<Transaction>)

  /** The exception handler's outcome: the manual form with today's date, and the note for an image. */
  function ManualOffer(today: JsDate, image: string): (r: ScanOutcome)
    ensures r.ManualEntryOffered? && r.date == FormatDate(Some(today)) && r.date != ""
    ensures r.description == ScanFailedNote <==> image != ""
    ensures r.description == "" <==> image == ""
  {
    ManualEntryOffered(FormatDate(Some(today)), if image != "" then ScanFailedNote else "")
  }

  /**
   * `processImageWithN8n` with the intended total recovery. `user` is the
   * signed-in uid, `today` the clock's date.
   */
  function ProcessImage(url: string, response: Response, user: Option<string>, image: string,
                        today: JsDate, totalMatch: string -> Option<string>): (r: ScanOutcome)
    ensures url == PlaceholderUrl ==> r == ConfigurationError
    ensures r.ManualEntryOffered? <==> url != PlaceholderUrl && response.Failed?
    ensures r.Processed? <==> url != PlaceholderUrl && response.Answered?
    ensures r.Processed? ==> (r.stored.Some? <==> user.Some?)
    ensures r.Processed? && user.Some? ==> r.stored.value.userId == user.value && r.stored.value.fullText == r.invoice.rawText
    ensures r.Processed? ==> r.invoice == Extract(response.output.GetOr(NoOutput), totalMatch)
    ensures r.Processed? && user.Some? ==> r.stored.value == ScannedTransaction(user.value, r.invoice, image)
  {
    if url == PlaceholderUrl then ConfigurationError
    else match response
      case Failed => ManualOffer(today, image)
      case HttpError(status) => WorkflowError(status)
      case Answered(output) =>
        var inv := Extract(output.GetOr(NoOutput), totalMatch);
        Processed(inv, if user.Some? then Some(ScannedTransaction(user.value, inv, image)) else None)
  }

  /**
   * `finalOcrResult` built with the recovery as written: `None` where that
   * recovery throws, which happens exactly for a missing total without `rawText`.
   */
  function ExtractAsWritten(o: OcrOutput, totalMatch: string -> Option<string>): (r: Option<Invoice>)
    ensures r.None? <==> Defaulted(o).total == Missing && o.rawText.None?
    ensures totalMatch("").None? && r.Some? ==> r.value == Extract(o, totalMatch)
  {
    var d := Defaulted(o);
    RecoverTotalAsWrittenThrows(d.total, o.rawText, totalMatch);
    match RecoverTotalAsWritten(d.total, o.rawText, totalMatch)
    case None => None
    case Some(total) =>
      var inv := d.(total := total, category := SettleCategory(d.category, d.rawText));
      if totalMatch("").None? then
        RecoverTotalAgrees(d.total, o.rawText, totalMatch);
        Some(inv)
      else Some(inv)
  }

  /**
   * `processImageWithN8n` as written: an extraction that throws is caught and
   * opens the manual form, as a failed call does. Whenever it does not end in
   * the manual form it gives what `ProcessImage` gives.
   */
  function ProcessImageAsWritten(url: string, response: Response, user: Option<string>, image: string,
                                 today: JsDate, totalMatch: string -> Option<string>): (r: ScanOutcome)
    ensures url == PlaceholderUrl ==> r == ConfigurationError
    ensures r.ManualEntryOffered? <==>
      && url != PlaceholderUrl
      && (response.Failed? || (response.Answered? && ExtractAsWritten(response.output.GetOr(NoOutput), totalMatch).None?))
    ensures r.ManualEntryOffered? ==> r == ManualOffer(today, image)
    ensures totalMatch("").None? && !r.ManualEntryOffered? ==> r == ProcessImage(url, response, user, image, today, totalMatch)
  {
    if url == PlaceholderUrl then ConfigurationError
    else match response
      case Failed => ManualOffer(today, image)
      case HttpError(status) => WorkflowError(status)
      case Answered(output) =>
        match ExtractAsWritten(output.GetOr(NoOutput), totalMatch)
        case None => ManualOffer(today, image)
        case Some(inv) => Processed(inv, if user.Some? then Some(ScannedTransaction(user.value, inv, image)) else None)
  }

  /**
   * As written, an answer without `output` never reaches the invoice: its
   * total is "N/A" and it has no `rawText`, so the recovery throws and the
   * manual form opens.
   */
  lemma MissingOutputOffersManualEntry(url: string, user: Option<string>, image: string, today: JsDate, totalMatch: string -> Option<string>)
    requires url != PlaceholderUrl
    ensures var r := ProcessImageAsWritten(url, Answered(None), user, image, today, totalMatch);
      && r.ManualEntryOffered? && r.date == FormatDate(Some(today))
      && (r.description == ScanFailedNote <==> image != "")
  {
    RecoveryThrowsWithoutText(totalMatch);
  }

  /** A failed scan offers the manual form with today's date and, for an image, the failure note. */
  lemma FailedScanOffersManualEntry(url: string, user: Option<string>, image: string, today: JsDate, totalMatch: string -> Option<string>)
    requires url != PlaceholderUrl
    ensures var r := ProcessImage(url, Failed, user, image, today, totalMatch);
      && r.date == FormatDate(Some(today)) && r.date != ""
      && (r.description == ScanFailedNote <==> image != "")
      && (r.description == "" <==> image == "")
  {
  }

  /**
   * With the intended recovery, an answer without `output` is processed as one
   * whose every field is missing (as written it opens the manual form instead).
   */
  lemma MissingOutputIsAllDefaults(url: string, user: Option<string>, image: string, today: JsDate, totalMatch: string -> Option<string>)
    requires url != PlaceholderUrl
    ensures var r := ProcessImage(url, Answered(None), user, image, today, totalMatch);
      && r.invoice.supplierName == Missing && r.invoice.total == Missing && r.invoice.items == []
      && r.invoice.category == CategorizeExpense(r.invoice.rawText)
  {
  }

  /**
   * A stored scan reads back on the Report screen without the search ever
   * throwing: every item it stores has a name.
   */
  lemma ScannedRecordSearchable(url: string, o: Option<OcrOutput>, uid: string, image: string, today: JsDate,
                                totalMatch: string -> Option<string>, date: Timestamp, amount: real, q: string)
    requires url != PlaceholderUrl
    ensures var r := ProcessImage(url, Answered(o), Some(uid), image, today, totalMatch);
      var e := Entry(AsDocument(r.stored.value, date), amount);
      Report.SearchAsWritten(e, q) == Some(Report.SearchHit(e, q))
  {
    var r := ProcessImage(url, Answered(o), Some(uid), image, today, totalMatch);
    Report.SearchAgreesWhenNamed(Entry(AsDocument(r.stored.value, date), amount), q);
  }

  // ---------------------------------------------------------------------------
  // Manual entry
  // ---------------------------------------------------------------------------

  /** The manual form's fields: the category starts as "Other", the others as the empty string. */
  datatype ManualForm = ManualForm(date: string, supplier: string, total: string, category: string, description: string)

  datatype ManualError = NotSignedIn | MissingField | InvalidTotal

  /** `s || fallback` for a form field. */
  function OrText(s: string, fallback: string): string {
    if s != "" then s else fallback
  }

  /** The full text a manual transaction stores. */
  function ManualFullText(f: ManualForm): string {
    "Manual Entry - Date: " + f.date + ", Supplier: " + f.supplier + ", Total: " + f.total
      + ", Category: " + f.category + ", Description: " + f.description
  }

  /** `handleManualEntrySubmit`: the transaction stored, or why none is. */
  function SubmitManual(user: Option<string>, f: ManualForm): (r: Result<Transaction, ManualError>)
    ensures r.Ok? ==> f.date != "" && f.supplier != "" && f.total != "" && f.category != ""
    ensures r.Ok? ==> !ParseFloat(f.total).NaN?
    ensures r.Ok? ==> user.Some? && r.value.userId == user.value
    ensures r.Ok? ==> |r.value.items| == 1 && r.value.items[0].name.Some? && r.value.items[0].name.value != ""
    ensures user.None? ==> r == Err(NotSignedIn)
  {
    if user.None? then Err(NotSignedIn)
    else if f.date == "" || f.supplier == "" || f.total == "" || f.category == "" then Err(MissingField)
    else if ParseFloat(f.total).NaN? then Err(InvalidTotal)
    else
      var name := OrText(f.description, f.category);
      Ok(Transaction(user.value, OrText(f.supplier, "Manual Entry"), OrText(f.date, Missing), OrText(f.total, "0.00"),
        f.category, ManualFullText(f), [Item(Some(name), Some("1"), Some(f.total), Some(f.total))],
        "Manual Entry", None))
  }

  /**
   * A manual entry is stored exactly when someone is signed in, the four
   * required fields are filled in and the total starts like a number.
   */
  lemma ManualAcceptance(user: Option<string>, f: ManualForm)
    ensures SubmitManual(user, f).Ok? <==>
      && user.Some?
      && f.date != "" && f.supplier != "" && f.total != "" && f.category != ""
      && StartsNumeral(Unsigned(TrimStart(f.total)))
  {
  }

  /** The checks run in order: sign-in first, then the required fields, then the total. */
  lemma ManualErrorOrder(user: Option<string>, f: ManualForm)
    ensures SubmitManual(user, f) == Err(MissingField) <==>
      user.Some? && (f.date == "" || f.supplier == "" || f.total == "" || f.category == "")
    ensures SubmitManual(user, f) == Err(InvalidTotal) <==>
      && user.Some? && f.date != "" && f.supplier != "" && f.total != "" && f.category != ""
      && ParseFloat(f.total).NaN?
  {
  }

  /**
   * An accepted entry stores the typed fields (the fallbacks never apply) and
   * one item named by the description, or by the category when there is none,
   * priced at the total; the Home screen describes it by that name.
   */
  lemma ManualRecordShape(user: Option<string>, f: ManualForm, date: Timestamp)
    requires SubmitManual(user, f).Ok?
    ensures var t := SubmitManual(user, f).value;
      && t.supplierName == f.supplier && t.invoiceDate == f.date && t.totalAmount == f.total && t.category == f.category
      && t.items == [Item(Some(OrText(f.description, f.category)), Some("1"), Some(f.total), Some(f.total))]
      && Description(AsDocument(t, date)) == (if f.description != "" then f.description else f.category)
  {
    DescriptionOfOneItem(AsDocument(SubmitManual(user, f).value, date));
  }

  /**
   * The Report screen's search finds a manual entry by (part of) its category,
   * through the stored full text, and never throws on it.
   */
  lemma ManualRecordFoundByCategory(user: Option<string>, f: ManualForm, date: Timestamp, amount: real, q: string)
    requires SubmitManual(user, f).Ok?
    requires Contains(ToLower(f.category), q)
    ensures var e := Entry(AsDocument(SubmitManual(user, f).value, date), amount);
      Report.SearchHit(e, q) && Report.SearchAsWritten(e, q) == Some(true)
  {
    var t := SubmitManual(user, f).value;
    var e := Entry(AsDocument(t, date), amount);
    var p := "Manual Entry - Date: " + f.date + ", Supplier: " + f.supplier + ", Total: " + f.total + ", Category: ";
    var s := ", Description: " + f.description;
    assert t.fullText == p + f.category + s;
    ToLowerAppend(p + f.category, s);
    ToLowerAppend(p, f.category);
    ContainsInContext(ToLower(p), ToLower(f.category), ToLower(s), q);
    assert Report.FieldMentions(e.doc.fullText, q);
    Report.SearchAgreesWhenNamed(e, q);
  }
}
