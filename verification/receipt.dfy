/**
 * The `processReceipt` Cloud Function: its request guards, the mapping of
 * every failure inside the workflow call to "internal", the fallback it
 * builds when the workflow gives no `ocrResult`, and the transaction it
 * stores. The workflow call and the store's write are parameters.
 */
module ReceiptFunction {
  import opened Wrappers
  import opened Strings
  import opened Records
  import opened Keywords
  import Report

  /** The codes of the `HttpsError`s the function can end with. */
  datatype ErrorCode = Unauthenticated | InvalidArgument | FailedPrecondition | Internal

  /** What the workflow extracted, used verbatim when it supplies one; any field may be missing. */
  datatype OcrResult = OcrResult(total: Option<string>, category: Option<string>, items: Option<seq<Item>>, rawText: Option<string>)

  /** The workflow's JSON body: an `ocrResult`, or loose fields to build one from. */
  datatype Body = Body(ocrResult: Option<OcrResult>, total: Option<string>, category: Option<string>, items: Option<seq<Item>>, rawText: Option<string>)

  /**
   * The workflow call: a failure to reach it or to read its body (an
   * exception), a non-OK status, or a body.
   */
  datatype Response = Failed | HttpError(status: int) | Answered(body: Body)

  /** The value `N8N_WEBHOOK_URL` is hard-coded to. */
  const PlaceholderUrl := "YOUR_N8N_WEBHOOK_URL_HERE"

  /** The `rawText` that stands for a missing one. */
  const NoRawText := "Không có văn bản gốc."

  /** `n8nResult.ocrResult || { ... }`. */
  function OcrResultOf(b: Body): (r: OcrResult)
    ensures b.ocrResult.Some? ==> r == b.ocrResult.value
    ensures b.ocrResult.None? ==> r.total.Some? && r.category.Some? && r.items.Some? && r.rawText.Some?
    ensures b.ocrResult.None? ==> r.total == Some(OrElse(b.total, "N/A")) && r.rawText == Some(OrElse(b.rawText, NoRawText))
    ensures b.ocrResult.None? && Truthy(b.category) ==> r.category == b.category
    ensures b.ocrResult.None? && !Truthy(b.category) ==> r.category == Some(CategorizeVietnamese(OrElse(b.rawText, "")))
    ensures b.ocrResult.None? ==> r.items == Some(b.items.GetOr([]))
  {
    match b.ocrResult
    case Some(o) => o
    case None =>
      OcrResult(Some(OrElse(b.total, "N/A")),
        Some(OrElse(b.category, CategorizeVietnamese(OrElse(b.rawText, "")))),
        Some(b.items.GetOr([])),
        Some(OrElse(b.rawText, NoRawText)))
  }

  /** The document written to `transactions`; the server timestamp is set by the store. */
  datatype StoredReceipt = StoredReceipt(
    userId: string,
    fullText: Option<string>,
    totalAmount: Option<string>,
    items: Option<seq<Item>>,
    category: Option<string>,
    receiptImage: string)

  /** The value returned to the app. */
  datatype Reply = Reply(ocrResult: OcrResult, transactionId: string, stored: StoredReceipt)

  /** The stored receipt as the screens read it back, with the time the store gave it. */
  function AsDocument(s: StoredReceipt, date: Timestamp): (r: Document)
    ensures r.category == s.category && r.fullText == s.fullText && r.totalAmount == s.totalAmount
    ensures r.supplierName.None?
  {
    Document(Some(date), s.category, None, s.fullText, s.items.GetOr([]), s.totalAmount, None)
  }

  /**
   * `processReceipt(data, context)`. `auth` is the caller's uid, `image` is
   * `data.image`, `url` the webhook URL, `response` the workflow's answer and
   * `docId` the id the store gives the new document (`None` when the write fails).
   */
  function ProcessReceipt(auth: Option<string>, image: Option<string>, url: string,
                          response: Response, docId: Option<string>): (r: Result<Reply, ErrorCode>)
    ensures auth.None? ==> r == Err(Unauthenticated)
    ensures r.Ok? ==> auth.Some? && r.value.stored.userId == auth.value
    ensures r.Ok? ==> Truthy(image) && url != PlaceholderUrl && response.Answered? && docId == Some(r.value.transactionId)
    ensures r.Ok? ==> r.value.ocrResult == OcrResultOf(response.body)
  {
    if auth.None? then Err(Unauthenticated)
    else if !Truthy(image) then Err(InvalidArgument)
    else if url == PlaceholderUrl then Err(FailedPrecondition)
    else match response
      case Failed => Err(Internal)
      case HttpError(_) => Err(Internal)
      case Answered(b) =>
        var o := OcrResultOf(b);
        var excerpt := (if |image.value| < 200 then image.value else image.value[..200]) + "...";
        var stored := StoredReceipt(auth.value, o.rawText, o.total, o.items, o.category, excerpt);
        match docId
        case None => Err(Internal)
        case Some(id) => Ok(Reply(o, id, stored))
  }

  /** The guards apply in order: sign-in, then the image, then the configured URL. */
  lemma GuardOrder(auth: Option<string>, image: Option<string>, url: string, response: Response, docId: Option<string>)
    ensures ProcessReceipt(auth, image, url, response, docId) == Err(Unauthenticated) <==> auth.None?
    ensures ProcessReceipt(auth, image, url, response, docId) == Err(InvalidArgument) <==> auth.Some? && !Truthy(image)
    ensures ProcessReceipt(auth, image, url, response, docId) == Err(FailedPrecondition) <==>
      auth.Some? && Truthy(image) && url == PlaceholderUrl
  {
  }

  /** With the URL the function ships with, no call gets past the guards. */
  lemma ShippedUrlNeverReachesWorkflow(auth: Option<string>, image: Option<string>, response: Response, docId: Option<string>)
    ensures var r := ProcessReceipt(auth, image, PlaceholderUrl, response, docId);
      r.Err? && r.error != Internal
  {
  }

  /**
   * Past the guards, every failure — an unreachable workflow, a non-OK status
   * (raised as "unavailable" and caught), a failed write — ends as "internal",
   * and the call succeeds exactly when the workflow answers and the write succeeds.
   */
  lemma FailuresInsideAreInternal(auth: Option<string>, image: Option<string>, url: string, response: Response, docId: Option<string>)
    requires auth.Some? && Truthy(image) && url != PlaceholderUrl
    ensures var r := ProcessReceipt(auth, image, url, response, docId);
      && (r.Err? ==> r.error == Internal)
      && (r.Ok? <==> response.Answered? && docId.Some?)
  {
  }

  /** The stored fields are copied from the reply's `ocrResult`, under the caller's uid. */
  lemma StoredMatchesReply(auth: Option<string>, image: Option<string>, url: string, response: Response, docId: Option<string>)
    requires ProcessReceipt(auth, image, url, response, docId).Ok?
    ensures var r := ProcessReceipt(auth, image, url, response, docId).value;
      && r.stored.userId == auth.value
      && r.stored.fullText == r.ocrResult.rawText && r.stored.totalAmount == r.ocrResult.total
      && r.stored.items == r.ocrResult.items && r.stored.category == r.ocrResult.category
      && |r.stored.receiptImage| <= 203
  {
  }

  /** Without an `ocrResult` the category is the workflow's when it gives one, else one of the Vietnamese categories. */
  lemma FallbackCategory(b: Body)
    requires b.ocrResult.None?
    ensures Truthy(b.category) ==> OcrResultOf(b).category == b.category
    ensures !Truthy(b.category) ==> OcrResultOf(b).category.value in VietnameseCategories
  {
  }

  /** A body with neither category nor text is filed under "Khác" and stored with the placeholder text. */
  lemma EmptyBodyIsOther(b: Body)
    requires b.ocrResult.None? && !Truthy(b.category) && !Truthy(b.rawText)
    ensures OcrResultOf(b).category == Some("Khác")
    ensures OcrResultOf(b).rawText == Some(NoRawText)
  {
    CategorizeVietnameseOfEmpty();
  }

  /**
   * The function stores the workflow's items as they come, so a stored receipt
   * can hold an item without a name; the Report screen's search, as written,
   * throws on it.
   */
  lemma UnnamedReceiptItemBreaksReportSearch(auth: string, image: string, url: string, id: string, date: Timestamp, amount: real, q: string)
    requires image != "" && url != PlaceholderUrl
    ensures var b := Body(None, None, None, Some([Item(None, None, None, None)]), None);
      var r := ProcessReceipt(Some(auth), Some(image), url, Answered(b), Some(id));
      r.Ok? && Report.SearchAsWritten(Entry(AsDocument(r.value.stored, date), amount), q).None?
  {
  }
}
