/**
 * The two input-boundary rules: numeric coercion of the quantity and rate
 * fields, and the name of the exported document.
 */
module Inputs {

  import opened Wrappers
  import opened InvoiceModel
  import opened LineItems

  /**
   * The number stored for a quantity or rate entry: the parsed number, or 0
   * when the parse fails. The parse itself is supplied by the caller: `None`
   * stands for NaN (nothing parsable). A parsed 0 also falls through to the
   * default 0, which is the same number.
   */
  function CoerceNumber(parsed: Option<real>): (r: real)
    ensures parsed.Some? ==> r == parsed.value
    ensures parsed.None? ==> r == 0.0
  {
    match parsed
    case Some(v) => if v == 0.0 then 0.0 else v
    case None => 0.0
  }

  /** The edit sent by the quantity box: a quantity edit carrying the coerced number. */
  function QtyInput(parsed: Option<real>): (e: ItemEdit)
    ensures parsed.Some? ==> e == SetQty(parsed.value)
    ensures parsed.None? ==> e == SetQty(0.0)
  {
    SetQty(CoerceNumber(parsed))
  }

  /** The edit sent by the rate box: a rate edit carrying the coerced number. */
  function RateInput(parsed: Option<real>): (e: ItemEdit)
    ensures parsed.Some? ==> e == SetRate(parsed.value)
    ensures parsed.None? ==> e == SetRate(0.0)
  {
    SetRate(CoerceNumber(parsed))
  }

  /** A quantity entry stores the parsed number, or 0 when nothing parsed, in every matching row. */
  lemma QtyInputStored(items: seq<Item>, id: int, parsed: Option<real>)
    ensures forall i :: 0 <= i < |items| && items[i].id == id ==>
      var after := UpdateItem(items, id, QtyInput(parsed))[i];
      && after.qty == (if parsed.Some? then parsed.value else 0.0)
      && after.desc == items[i].desc && after.rate == items[i].rate && after.id == id
  {
    var r := UpdateItem(items, id, QtyInput(parsed));
    forall i | 0 <= i < |items| && items[i].id == id
      ensures r[i].qty == (if parsed.Some? then parsed.value else 0.0)
    {
      assert Edited(items[i], r[i], QtyInput(parsed));
    }
  }

  /** A rate entry stores the parsed number, or 0 when nothing parsed, in every matching row. */
  lemma RateInputStored(items: seq<Item>, id: int, parsed: Option<real>)
    ensures forall i :: 0 <= i < |items| && items[i].id == id ==>
      var after := UpdateItem(items, id, RateInput(parsed))[i];
      && after.rate == (if parsed.Some? then parsed.value else 0.0)
      && after.desc == items[i].desc && after.qty == items[i].qty && after.id == id
  {
    var r := UpdateItem(items, id, RateInput(parsed));
    forall i | 0 <= i < |items| && items[i].id == id
      ensures r[i].rate == (if parsed.Some? then parsed.value else 0.0)
    {
      assert Edited(items[i], r[i], RateInput(parsed));
    }
  }

  /** The export name: the invoice number, or "invoice" when the number is empty, followed by ".pdf". */
  function PdfFilename(invNumber: string): (name: string)
    ensures |name| >= 4 && name[|name| - 4..] == ".pdf"
    ensures invNumber != "" ==> name[..|name| - 4] == invNumber
    ensures invNumber == "" ==> name == "invoice.pdf"
  {
    (if invNumber == "" then "invoice" else invNumber) + ".pdf"
  }

  /**
   * Distinct non-empty invoice numbers give distinct file names; the empty
   * number and the number "invoice" share one.
   */
  lemma PdfFilenameInjective(a: string, b: string)
    requires a != "" && b != "" && a != b
    ensures PdfFilename(a) != PdfFilename(b)
    ensures PdfFilename("") == PdfFilename("invoice")
  {
  }
}
