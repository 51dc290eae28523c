# Invoice builder: line items and totals

A model of the state logic of a client-side invoice editor (`src/App.tsx`).
The editor holds an invoice header and an ordered list of line items. Each
user edit replaces that state with a new snapshot. The model covers:

- the line item list operations: append a new row, edit one field of every
  row with a given identity, and delete every row with a given identity
  (module `LineItems`);
- the derived totals: the subtotal as a left fold of `qty * rate`, the tax
  amount from a percentage rate, and the grand total (module `Totals`);
- the input boundary: `parseFloat(text) || 0` coercion of quantity and rate,
  and the export file name `${invNumber || 'invoice'}.pdf` (module `Inputs`);
- the header record with its whole-object field updates, and the initial
  header (module `InvoiceModel`);
- the whole editor state, the events that replace it, and the invariants
  that hold over any run of events (module `App`).

Every operation is a pure function over values (`seq<Item>`, datatypes).
Arithmetic is exact over `real`. Identities, clock readings and date
formatting are parameters.

One fact about the code shapes the model: the tax-rate field stores the raw
input text (`src/App.tsx:95`, `:291`), and the model keeps the tax rate as a
number.

## Model

| member | source | states |
|---|---|---|
| InvoiceModel.ApplyHeaderEdit | src/App.tsx:93-96 | after a header edit, the named field holds the new value and every other field is unchanged |
| InvoiceModel.StoredEditIsNoOp | src/App.tsx:95 | an edit whose value the header already holds returns the same header |
| InvoiceModel.HeaderEditIdempotent | src/App.tsx:95 | applying a header edit twice gives the same header as applying it once |
| InvoiceModel.InitialData | src/App.tsx:34-51 | the starting header: the date is the first clock reading, the due date the second reading + 7 days in ms; number "#INV-001", unpaid; sender "Visernic Limited" with its address, no recipient; currency "$", tax label "Tax", tax rate 0; the thank-you note, brand colour "#2563eb", plain background, no images |
| LineItems.AddItem | src/App.tsx:110-112 | the new list is one longer, the old list is an unchanged prefix, and the last row is `{id, '', 1, 0}` |
| LineItems.AddItemKeepsUnique | src/App.tsx:111 | appending a row whose identity is not yet used keeps identities unique, and the identity is then present |
| LineItems.ApplyEdit | src/App.tsx:116 | the edited row differs from the old one only in the named field, which now holds the value; the identity is kept |
| LineItems.UpdateItem | src/App.tsx:114-118 | length and order are kept, rows with another identity are unchanged, every matching row is edited in exactly the named field, and an absent identity leaves the list unchanged |
| LineItems.UpdateItemKeepsIds | src/App.tsx:114-118 | an edit keeps every row's identity, so it keeps the set of identities and their uniqueness |
| LineItems.UpdateItemIdempotent | src/App.tsx:114-118 | repeating the same edit changes nothing more |
| LineItems.DeleteItem | src/App.tsx:120-122 | a row is kept iff its identity differs; length drops by the number of matching rows; an absent identity leaves the list unchanged |
| LineItems.DeleteItemAppend | src/App.tsx:121 | deleting commutes with concatenation, so the survivors keep their original order |
| LineItems.DeleteItemKeepsUnique | src/App.tsx:120-122 | deleting keeps identities unique |
| LineItems.AddThenDelete | src/App.tsx:110-122 | adding a row with a fresh identity, then deleting that identity, gives back the original list |
| LineItems.MintId | src/App.tsx:111 | corrected identity rule, with no counterpart in the source: the minted identity is not in use, and it equals the clock reading whenever that reading is not in use |
| LineItems.AddMintedKeepsUnique | src/App.tsx:111 | corrected identity rule, with no counterpart in the source: adding a row with a minted identity keeps identities unique, and deleting it restores the list |
| LineItems.ClockIdCollision | src/App.tsx:111 | two rows added at the same clock reading share an identity, and one delete removes both rows |
| Totals.Reduce | src/App.tsx:125 | the row-by-row running total from `acc` equals `acc` plus the sum of the row amounts |
| Totals.Subtotal | src/App.tsx:125 | the subtotal computed by the fold from 0 equals the sum of `qty * rate` |
| Totals.SumAppend | src/App.tsx:125 | the sum of amounts is additive over concatenation |
| Totals.ComputeTotals | src/App.tsx:125-127 | subtotal is the sum of amounts, `100 * tax == subtotal * taxRate`, `total == subtotal + tax`, and `100 * total == subtotal * (100 + taxRate)` |
| Totals.ZeroTaxTotal | src/App.tsx:126-127 | at a tax rate of 0 the tax is 0 and the total equals the subtotal |
| Totals.SumNonNegative | src/App.tsx:125 | rows with non-negative quantity and rate have a non-negative sum |
| Totals.TotalsOrdered | src/App.tsx:125-127 | with non-negative rows and tax rate, `0 <= subtotal <= total` |
| Totals.AddItemKeepsSubtotal | src/App.tsx:111 | the appended row has rate 0, so the subtotal is unchanged |
| Totals.DescEditKeepsSubtotal | src/App.tsx:260 | a description edit leaves the subtotal unchanged |
| Totals.UpdateItemSubtotal | src/App.tsx:114-118 | with unique identities, editing row k changes the subtotal by exactly that row's change of amount |
| Totals.DeleteItemSubtotal | src/App.tsx:120-122 | with unique identities, deleting row k by its identity subtracts exactly its amount |
| Totals.SingleRowExample | src/App.tsx:125-127 | one row of 1 x 500 at 0% tax gives 500 / 0 / 500 |
| Totals.TwoRowExample | src/App.tsx:125-127 | rows 2 x 150 and 1 x 50 at 10% tax give 350 / 35 / 385 |
| Totals.EmptyListExample | src/App.tsx:125-127 | no rows give 0 / 0 / 0 at any tax rate |
| Inputs.CoerceNumber | src/App.tsx:269 | a parsed number is stored as is; a failed parse (NaN) is stored as 0 |
| Inputs.QtyInput | src/App.tsx:269 | the quantity box sends a quantity edit carrying the parsed number, or 0 when nothing parsed |
| Inputs.RateInput | src/App.tsx:276 | the rate box sends a rate edit carrying the parsed number, or 0 when nothing parsed |
| Inputs.QtyInputStored | src/App.tsx:269 | a quantity entry stores the parsed number, or 0, in every matching row and changes no other field |
| Inputs.RateInputStored | src/App.tsx:276 | a rate entry stores the parsed number, or 0, in every matching row and changes no other field |
| Inputs.PdfFilename | src/App.tsx:145 | the name ends in ".pdf"; its stem is the invoice number when that is non-empty; otherwise the name is "invoice.pdf" |
| Inputs.PdfFilenameInjective | src/App.tsx:145 | distinct non-empty invoice numbers give distinct names; "" and "invoice" share one |
| App.Initial | src/App.tsx:34-82 | the starting state has unique identities, all at most the seed reading, invoice number "#INV-001", tax rate 0, and exactly one row, whose identity is the seed reading |
| App.InitialItems | src/App.tsx:80-82 | the editor starts with exactly one row, `{seedId, 'Web Development', 1, 500}`, whose amounts sum to 500 |
| App.Step | src/App.tsx:93-122 | a header edit changes only the header; a row event changes only the rows; an added row is the blank row with exactly the identity handed in, appended after the old rows; a row edit replaces the rows by `UpdateItem` and a row delete by `DeleteItem` of the old rows |
| App.Run | src/App.tsx:93-122 | over a run of events, row events never change the header and header edits never change the rows |
| App.InvoiceTotals | src/App.tsx:125-127 | the totals of a state are the sum of its row amounts, the tax as a percentage of it, and their sum |
| App.ExportFilename | src/App.tsx:145 | a state exports as its invoice number + ".pdf", or "invoice.pdf" when the number is empty |
| App.InitialFacts | src/App.tsx:34-82 | the starting state has unique identities, totals 500 / 0 / 500, and exports as "#INV-001.pdf" |
| App.StepKeepsValid | src/App.tsx:110-122 | every event keeps row identities unique, provided an added row's identity is not already in use |
| App.RunKeepsValid | src/App.tsx:110-122 | a run from a valid state ends valid when every added row takes an identity not in use at that point |
| App.DuplicateAddBreaksValid | src/App.tsx:111 | adding a row with an identity already in use leaves two rows with one identity |
| App.HeaderEditKeepsTotals | src/App.tsx:93-96 | editing any header field but the tax rate (background style, status, parties, ...) leaves the totals unchanged |
| App.AddRowKeepsTotals | src/App.tsx:110-112 | adding a row leaves the totals unchanged, whatever its identity |
| App.AddThenDeleteRow | src/App.tsx:110-122 | adding a row with an unused identity and then deleting that identity gives back the whole state |
| App.MintedStep | src/App.tsx:111 | corrected identity rule, with no counterpart in the source: the step agrees with `Step` except that an added row's identity is never in use, and equals the handed-in reading whenever that is unused; an added row is the blank row, appended after the old rows |
| App.StepUnderClock | src/App.tsx:110-122 | when an added row's reading exceeds every identity in use, the add is fresh, the rows stay at or below the new bound, and an absent identity at or below the old bound stays absent |
| App.ClockRunIsFresh | src/App.tsx:110-122 | under a strictly increasing clock starting above every identity in use, every add in the run is fresh, and an absent identity at or below the start never appears |
| App.DeletedIdNeverReused | src/App.tsx:110-122 | under a strictly increasing clock, an identity deleted from the rows is absent after any later run of events |
| App.MintedRunIsRunUnderClock | src/App.tsx:110-122 | corrected identity rule: while the clock strictly increases from above every identity in use, the corrected run equals the run as written |
| App.MintedDeletedIdNeverReused | src/App.tsx:110-122 | corrected identity rule: under a strictly increasing clock, an identity deleted from the rows is absent after any later run of events |
| App.MintedFallbackReusesDeletedId | src/App.tsx:111 | corrected identity rule: deleting row 4 of rows 3 and 4 and then adding at reading 3 brings identity 4 back, through the fallback |
| App.MintedStepKeepsValid | src/App.tsx:111 | corrected identity rule: every event keeps identities unique, with no premise |
| App.MintedRunKeepsValid | src/App.tsx:110-122 | corrected identity rule: any run from a valid state ends valid |
| App.MintedAddRowKeepsTotals | src/App.tsx:110-112 | corrected identity rule: adding a row leaves the totals unchanged |
| App.MintedAddThenDeleteRow | src/App.tsx:110-122 | corrected identity rule: adding a row and deleting its minted identity always gives back the state |

## Findings

| source | as written | input that shows it | evidently intended | confidence | as-written member | corrected member |
|---|---|---|---|---|---|---|
| src/App.tsx:111 | a new row's identity is the clock reading `Date.now()` | two "Add Item" clicks in the same millisecond, or a clock that steps back onto an identity in use: the rows share an identity, and deleting one deletes both (editing one edits both) | every row has an identity no other row has | not executed; needs two adds in one millisecond or a clock step back | LineItems.ClockIdCollision | App.MintedStep |

`App.Step` models the code as written: an added row takes the identity it is
handed, and `App.DuplicateAddBreaksValid` shows that an identity already in
use breaks uniqueness. `App.MintedStep` is the corrected step. It takes the
identity from `LineItems.MintId`, which keeps the clock reading whenever that
reading is not in use and otherwise uses one past the largest identity. So
it agrees with `App.Step` in every case where the source already gives a
fresh identity, and `App.MintedRunKeepsValid` needs no premise.

## Left out

- Rendering of the sidebar and the preview (`src/App.tsx:161-405`) and the accordion toggle (`:54-76`): view markup and UI state.
- Two-decimal display formatting (`toFixed(2)`): display only; the model keeps exact values.
- PDF export through `html2pdf` (`:130-159`): a foreign, asynchronous library call on a DOM element. The saving, neutralising and restoring of the three style properties is DOM state. Only the file name rule is modelled. The styles are restored only in the success continuation of the export call (`:153-158`), so a failed export leaves them neutralised; this is not modelled.
- Image upload through `FileReader` (`:98-107`): asynchronous browser I/O. Its final state update is the `SetLogoUrl` / `SetSignatureUrl` header edit.
- The CSS custom property write for the brand colour (`:88-90`): a DOM side effect.
- The clock and date formatting (`:36-37`, `:81`, `:111`): the readings are parameters (`now`, `dateOf`, `seedId`, and the `newId` of an `AddRow` event, which stands for the reading `Date.now()`). The issue date and the due date are two separate readings (`new Date()` at `:36`, `Date.now()` at `:37`), the parameters `dateNow` and `dueNow`; the model relates them in no way.
- `parseFloat` itself: a JavaScript builtin. Its result is a parameter, with `None` for NaN. Infinite results are not modelled.
- Floating-point behaviour of JavaScript numbers: all arithmetic is exact over `real`.
- InvoiceModel.ApplyHeaderEdit: the tax rate is taken as a number. The source stores the raw input text and relies on string-to-number coercion in `subtotal * (taxRate / 100)`.
- App.MintedStep: the corrected rule keeps identities unique within the list, but it does not prevent reusing an identity that was deleted earlier. That happens in two ways: a later reading equals the deleted identity, or a later reading hits an identity still in use and the fallback "largest identity + 1" equals the deleted one (`App.MintedFallbackReusesDeletedId`). Neither can happen while the clock strictly increases: `App.MintedRunIsRunUnderClock` shows the corrected run is then the run as written, and `App.MintedDeletedIdNeverReused` (with `App.DeletedIdNeverReused`) shows a deleted identity stays absent.
- LineItems.UpdateItem: edits of the `id` field, which the field type allows, are not modelled. The source never makes one.
