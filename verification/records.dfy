/**
 * Transaction documents as the screens read them from Firestore, with every
 * field optional (a document written elsewhere may lack any of them), and the
 * JS value idioms the screens apply to those fields.
 */
module Records {
  import opened Wrappers
  import opened Seqs
  import opened Strings

  /** A Firestore `Timestamp`: whole seconds since the epoch and the nanoseconds within the second. */
  datatype Timestamp = Timestamp(seconds: int, nanoseconds: int)

  predicate WellFormedTimestamp(t: Timestamp) {
    0 <= t.nanoseconds < 1000000000
  }

  /** `t` is no later than `u`. */
  predicate NotAfter(t: Timestamp, u: Timestamp) {
    t.seconds < u.seconds || (t.seconds == u.seconds && t.nanoseconds <= u.nanoseconds)
  }

  /**
   * `t.toDate().getTime()`: the exact time in milliseconds, truncated toward
   * zero as `new Date` does when it clips a time value.
   */
  function Millis(t: Timestamp): int {
    var nanos := t.seconds * 1000000000 + t.nanoseconds;
    if nanos >= 0 then nanos / 1000000 else -((-nanos) / 1000000)
  }

  /** Millisecond times never reverse the order of timestamps. */
  lemma MillisMonotone(t: Timestamp, u: Timestamp)
    requires WellFormedTimestamp(t) && WellFormedTimestamp(u)
    requires NotAfter(t, u)
    ensures Millis(t) <= Millis(u)
  {
    var a := t.seconds * 1000000000 + t.nanoseconds;
    var b := u.seconds * 1000000000 + u.nanoseconds;
    assert a <= b by {
      if t.seconds < u.seconds {
        assert t.seconds * 1000000000 + 1000000000 <= u.seconds * 1000000000;
      }
    }
    TruncDivMonotone(a, b);
  }

  /** `Millis` of whole seconds counts the seconds in thousands, exactly. */
  lemma MillisOfWholeSeconds(s: int)
    ensures Millis(Timestamp(s, 0)) == s * 1000
  {
    var nanos := s * 1000000000;
    assert nanos == (s * 1000) * 1000000;
    if nanos < 0 {
      assert -nanos == (-s * 1000) * 1000000;
    }
  }

  lemma TruncDivMonotone(a: int, b: int)
    requires a <= b
    ensures (if a >= 0 then a / 1000000 else -((-a) / 1000000)) <= (if b >= 0 then b / 1000000 else -((-b) / 1000000))
  {
  }

  /** A line item; each field may be missing. */
  datatype Item = Item(name: Option<string>, quantity: Option<string>, unitPrice: Option<string>, itemTotal: Option<string>)

  /**
   * A transaction document. A missing `items` array reads like an empty one
   * on both screens, so it is the empty sequence here.
   */
  datatype Document = Document(
    date: Option<Timestamp>,
    category: Option<string>,
    supplierName: Option<string>,
    fullText: Option<string>,
    items: seq<Item>,
    totalAmount: Option<string>,
    invoiceDate: Option<string>)

  /** `{ id: doc.id, ...data, parsedAmount: amount }`: a document with the amount a screen parsed from it. */
  datatype Entry = Entry(doc: Document, parsedAmount: real)

  /** The entries a snapshot yields, in snapshot order, amounts parsed with `parse`. */
  function Load(docs: seq<Document>, parse: Option<string> -> real): (r: seq<Entry>)
    ensures |r| == |docs|
    ensures forall i :: 0 <= i < |docs| ==> r[i].doc == docs[i] && r[i].parsedAmount == parse(docs[i].totalAmount)
  {
    Map(docs, (d: Document) => Entry(d, parse(d.totalAmount)))
  }

  /** A string-valued field is truthy when present and non-empty. */
  predicate Truthy(o: Option<string>) {
    o.Some? && o.value != ""
  }

  /** `o || fallback` for a string-valued field. */
  function OrElse(o: Option<string>, fallback: string): string {
    if Truthy(o) then o.value else fallback
  }

  /** `items.map(item => item.name).join(', ')`: a missing name joins as the empty string. */
  function ItemNames(items: seq<Item>): string {
    Join(Map(items, (it: Item) => it.name.GetOr("")), ", ")
  }

  /**
   * The description the Home screen shows and searches: the item names when
   * there are items, else the full text, else the empty string.
   */
  function Description(d: Document): string {
    if |d.items| > 0 then ItemNames(d.items) else OrElse(d.fullText, "")
  }

  /** A single named item's description is its name. */
  lemma DescriptionOfOneItem(d: Document)
    requires |d.items| == 1 && d.items[0].name.Some?
    ensures Description(d) == d.items[0].name.value
  {
  }
}
