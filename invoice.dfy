/**
 * The invoice state shapes: the line item record and the header record with
 * its two closed enumerations, the header edits the form performs, and the
 * header the editor starts with.
 */
module InvoiceModel {

  import opened Wrappers

  /** One billable row. Its amount is never stored: it is always qty * rate. */
  datatype Item = Item(id: int, desc: string, qty: real, rate: real)

  /** Payment status shown as a badge. */
  datatype Status = Paid | Unpaid | Refunded

  /** The three background presets of the preview. */
  datatype BgStyle = Plain | Geometric | Abstract

  /** The invoice header. Image payloads are self-contained data URLs. */
  datatype InvoiceData = InvoiceData(
    invNumber: string,
    date: string,
    dueDate: string,
    status: Status,
    fromName: string,
    fromDetails: string,
    toName: string,
    toDetails: string,
    currency: string,
    taxLabel: string,
    taxRate: real,
    notes: string,
    brandColor: string,
    bgStyle: BgStyle,
    logoUrl: Option<string>,
    signatureUrl: Option<string>)

  /** A header update: a new header in which one named field takes a new value. */
  datatype HeaderEdit =
    | SetInvNumber(string)
    | SetDate(string)
    | SetDueDate(string)
    | SetStatus(Status)
    | SetFromName(string)
    | SetFromDetails(string)
    | SetToName(string)
    | SetToDetails(string)
    | SetCurrency(string)
    | SetTaxLabel(string)
    | SetTaxRate(real)
    | SetNotes(string)
    | SetBrandColor(string)
    | SetBgStyle(BgStyle)
    | SetLogoUrl(string)
    | SetSignatureUrl(string)

  /** The field the edit names now holds the edit's value. */
  predicate Stored(h: InvoiceData, e: HeaderEdit)
  {
    match e
    case SetInvNumber(v) => h.invNumber == v
    case SetDate(v) => h.date == v
    case SetDueDate(v) => h.dueDate == v
    case SetStatus(v) => h.status == v
    case SetFromName(v) => h.fromName == v
    case SetFromDetails(v) => h.fromDetails == v
    case SetToName(v) => h.toName == v
    case SetToDetails(v) => h.toDetails == v
    case SetCurrency(v) => h.currency == v
    case SetTaxLabel(v) => h.taxLabel == v
    case SetTaxRate(v) => h.taxRate == v
    case SetNotes(v) => h.notes == v
    case SetBrandColor(v) => h.brandColor == v
    case SetBgStyle(v) => h.bgStyle == v
    case SetLogoUrl(v) => h.logoUrl == Some(v)
    case SetSignatureUrl(v) => h.signatureUrl == Some(v)
  }

  /** Every field the edit does not name is the same in `h` and `h'`. */
  predicate OnlyChanged(h: InvoiceData, h': InvoiceData, e: HeaderEdit)
  {
    && (e.SetInvNumber? || h'.invNumber == h.invNumber)
    && (e.SetDate? || h'.date == h.date)
    && (e.SetDueDate? || h'.dueDate == h.dueDate)
    && (e.SetStatus? || h'.status == h.status)
    && (e.SetFromName? || h'.fromName == h.fromName)
    && (e.SetFromDetails? || h'.fromDetails == h.fromDetails)
    && (e.SetToName? || h'.toName == h.toName)
    && (e.SetToDetails? || h'.toDetails == h.toDetails)
    && (e.SetCurrency? || h'.currency == h.currency)
    && (e.SetTaxLabel? || h'.taxLabel == h.taxLabel)
    && (e.SetTaxRate? || h'.taxRate == h.taxRate)
    && (e.SetNotes? || h'.notes == h.notes)
    && (e.SetBrandColor? || h'.brandColor == h.brandColor)
    && (e.SetBgStyle? || h'.bgStyle == h.bgStyle)
    && (e.SetLogoUrl? || h'.logoUrl == h.logoUrl)
    && (e.SetSignatureUrl? || h'.signatureUrl == h.signatureUrl)
  }

  /** The header that results from one form edit (or one finished image read). */
  function ApplyHeaderEdit(h: InvoiceData, e: HeaderEdit): (r: InvoiceData)
    ensures Stored(r, e)
    ensures OnlyChanged(h, r, e)
  {
    match e
    case SetInvNumber(v) => h.(invNumber := v)
    case SetDate(v) => h.(date := v)
    case SetDueDate(v) => h.(dueDate := v)
    case SetStatus(v) => h.(status := v)
    case SetFromName(v) => h.(fromName := v)
    case SetFromDetails(v) => h.(fromDetails := v)
    case SetToName(v) => h.(toName := v)
    case SetToDetails(v) => h.(toDetails := v)
    case SetCurrency(v) => h.(currency := v)
    case SetTaxLabel(v) => h.(taxLabel := v)
    case SetTaxRate(v) => h.(taxRate := v)
    case SetNotes(v) => h.(notes := v)
    case SetBrandColor(v) => h.(brandColor := v)
    case SetBgStyle(v) => h.(bgStyle := v)
    case SetLogoUrl(v) => h.(logoUrl := Some(v))
    case SetSignatureUrl(v) => h.(signatureUrl := Some(v))
  }

  /** A header that already holds an edit's value is left as it is by that edit. */
  lemma StoredEditIsNoOp(h: InvoiceData, e: HeaderEdit)
    requires Stored(h, e)
    ensures ApplyHeaderEdit(h, e) == h
  {
  }

  /** Repeating an edit changes nothing more; the last of two edits of one field wins. */
  lemma HeaderEditIdempotent(h: InvoiceData, e: HeaderEdit)
    ensures ApplyHeaderEdit(ApplyHeaderEdit(h, e), e) == ApplyHeaderEdit(h, e)
  {
    StoredEditIsNoOp(ApplyHeaderEdit(h, e), e);
  }

  /** Milliseconds in the seven days between the issue date and the due date. */
  const WeekMs: int := 7 * 24 * 60 * 60 * 1000

  /**
   * The header the editor starts with. The two clock readings (one for the
   * issue date, one for the due date) and the calendar-date formatting
   * `dateOf` are supplied by the caller.
   */
  function InitialData(dateNow: int, dueNow: int, dateOf: int -> string): (h: InvoiceData)
    ensures h.date == dateOf(dateNow) && h.dueDate == dateOf(dueNow + 604800000)
    ensures h.invNumber == "#INV-001" && h.status == Unpaid && h.bgStyle == Plain
    ensures h.fromName == "Visernic Limited" && h.fromDetails == "123 Business St, Tech City, 5000"
    ensures h.toName == "" && h.toDetails == ""
    ensures h.currency == "$" && h.taxLabel == "Tax" && h.taxRate == 0.0
    ensures h.notes == "Thank you for your business." && h.brandColor == "#2563eb"
    ensures h.logoUrl == None && h.signatureUrl == None
  {
    InvoiceData(
      invNumber := "#INV-001",
      date := dateOf(dateNow),
      dueDate := dateOf(dueNow + WeekMs),
      status := Unpaid,
      fromName := "Visernic Limited",
      fromDetails := "123 Business St, Tech City, 5000",
      toName := "",
      toDetails := "",
      currency := "$",
      taxLabel := "Tax",
      taxRate := 0.0,
      notes := "Thank you for your business.",
      brandColor := "#2563eb",
      bgStyle := Plain,
      logoUrl := None,
      signatureUrl := None)
  }
}
