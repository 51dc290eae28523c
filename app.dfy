/**
 * The editor's whole state, the user events that replace it, and the facts
 * that hold over any run of events. Two steps are given: `Step`, where a
 * new row takes the identity it is handed (the clock reading), and
 * `MintedStep`, where a new row takes an identity minted to be fresh.
 */
module App {

  import opened InvoiceModel
  import opened LineItems
  import opened Totals
  import opened Inputs

  /** One state snapshot: the header and the ordered rows. */
  datatype Invoice = Invoice(data: InvoiceData, items: seq<Item>)

  /** The single row the editor starts with. */
  function InitialItems(seedId: int): (r: seq<Item>)
    ensures |r| == 1 && r[0] == Item(seedId, "Web Development", 1.0, 500.0)
    ensures UniqueIds(r) && HasId(r, seedId)
    ensures Sum(r) == 500.0
  {
    var r := [Item(seedId, "Web Development", 1.0, 500.0)];
    assert r[1..] == [];
    r
  }

  /** The starting state: the initial header and the seeded row. Clock readings and date formatting are parameters. */
  function Initial(dateNow: int, dueNow: int, dateOf: int -> string, seedId: int): (s: Invoice)
    ensures Valid(s) && Bounded(s.items, seedId)
    ensures s.data.invNumber == "#INV-001" && s.data.taxRate == 0.0
    ensures |s.items| == 1 && s.items[0].id == seedId
  {
    Invoice(InitialData(dateNow, dueNow, dateOf), InitialItems(seedId))
  }

  /** One user interaction that replaces the state. */
  datatype Event =
    | EditHeader(edit: HeaderEdit)
    | AddRow(newId: int)
    | EditRow(rowId: int, change: ItemEdit)
    | DeleteRow(target: int)

  /** The state after one event. A new row takes the identity `newId` with no check against the list. */
  function Step(s: Invoice, ev: Event): (r: Invoice)
    ensures !ev.EditHeader? ==> r.data == s.data
    ensures ev.EditHeader? ==> r.items == s.items && Stored(r.data, ev.edit) && OnlyChanged(s.data, r.data, ev.edit)
    ensures ev.AddRow? ==> |r.items| == |s.items| + 1 && r.items[..|s.items|] == s.items
    ensures ev.AddRow? ==> r.items[|s.items|] == NewItem(ev.newId)
    ensures ev.EditRow? ==> r.items == UpdateItem(s.items, ev.rowId, ev.change)
    ensures ev.DeleteRow? ==> r.items == DeleteItem(s.items, ev.target)
  {
    match ev
    case EditHeader(e) => s.(data := ApplyHeaderEdit(s.data, e))
    case AddRow(id) => s.(items := AddItem(s.items, id))
    case EditRow(id, e) => s.(items := UpdateItem(s.items, id, e))
    case DeleteRow(id) => s.(items := DeleteItem(s.items, id))
  }

  /** The state after a run of events, applied in order. Row events never touch the header, nor header edits the rows. */
  function Run(s: Invoice, evs: seq<Event>): (r: Invoice)
    ensures (forall i :: 0 <= i < |evs| ==> !evs[i].EditHeader?) ==> r.data == s.data
    ensures (forall i :: 0 <= i < |evs| ==> evs[i].EditHeader?) ==> r.items == s.items
    decreases |evs|
  {
    if evs == [] then s else Run(Step(s, evs[0]), evs[1..])
  }

  /** The state invariant: no identity occurs twice among the rows. */
  predicate Valid(s: Invoice)
  {
    UniqueIds(s.items)
  }

  /** Every row added along the run takes an identity not in use at that point. */
  predicate FreshAdds(s: Invoice, evs: seq<Event>)
    decreases |evs|
  {
    evs == []
    || ((evs[0].AddRow? ==> !HasId(s.items, evs[0].newId)) && FreshAdds(Step(s, evs[0]), evs[1..]))
  }

  /** The totals shown for a state: they read only the rows and the tax rate. */
  function InvoiceTotals(s: Invoice): (t: Summary)
    ensures t.subtotal == Sum(s.items)
    ensures t.total == t.subtotal + t.taxAmount
    ensures t.taxAmount * 100.0 == t.subtotal * s.data.taxRate
  {
    ComputeTotals(s.items, s.data.taxRate)
  }

  /** The name of the exported document for a state. */
  function ExportFilename(s: Invoice): (name: string)
    ensures s.data.invNumber != "" ==> name == s.data.invNumber + ".pdf"
    ensures s.data.invNumber == "" ==> name == "invoice.pdf"
  {
    var name := PdfFilename(s.data.invNumber);
    assert name == name[..|name| - 4] + name[|name| - 4..];
    name
  }

  /** The starting state is valid, totals 500 with no tax, and exports as "#INV-001.pdf". */
  lemma InitialFacts(dateNow: int, dueNow: int, dateOf: int -> string, seedId: int)
    ensures Valid(Initial(dateNow, dueNow, dateOf, seedId))
    ensures InvoiceTotals(Initial(dateNow, dueNow, dateOf, seedId)) == Summary(500.0, 0.0, 500.0)
    ensures ExportFilename(Initial(dateNow, dueNow, dateOf, seedId)) == "#INV-001.pdf"
  {
    SingleRowExample(seedId);
  }

  /** Every event keeps identities unique, provided an added row's identity is not in use. */
  lemma StepKeepsValid(s: Invoice, ev: Event)
    requires Valid(s)
    requires ev.AddRow? ==> !HasId(s.items, ev.newId)
    ensures Valid(Step(s, ev))
  {
    match ev
    case EditHeader(e) =>
    case AddRow(id) => AddItemKeepsUnique(s.items, id);
    case EditRow(id, e) => UpdateItemKeepsIds(s.items, id, e);
    case DeleteRow(id) => DeleteItemKeepsUnique(s.items, id);
  }

  /** A run from a valid state whose added rows all take unused identities ends in a valid state. */
  lemma {:induction false} RunKeepsValid(s: Invoice, evs: seq<Event>)
    requires Valid(s)
    requires FreshAdds(s, evs)
    ensures Valid(Run(s, evs))
    decreases |evs|
  {
    if evs != [] {
      StepKeepsValid(s, evs[0]);
      RunKeepsValid(Step(s, evs[0]), evs[1..]);
    }
  }

  /** Adding a row whose identity is already in use breaks the invariant. */
  lemma DuplicateAddBreaksValid(s: Invoice, id: int)
    requires HasId(s.items, id)
    ensures !Valid(Step(s, AddRow(id)))
  {
    var i :| 0 <= i < |s.items| && s.items[i].id == id;
    var r := Step(s, AddRow(id)).items;
    assert r[i] == s.items[i] && r[|s.items|].id == id;
  }

  /** A header edit of any field but the tax rate (style, status, parties, ...) leaves the totals unchanged. */
  lemma HeaderEditKeepsTotals(s: Invoice, e: HeaderEdit)
    requires !e.SetTaxRate?
    ensures InvoiceTotals(Step(s, EditHeader(e))) == InvoiceTotals(s)
  {
  }

  /** Adding a row leaves the totals unchanged, whatever its identity. */
  lemma AddRowKeepsTotals(s: Invoice, id: int)
    ensures InvoiceTotals(Step(s, AddRow(id))) == InvoiceTotals(s)
  {
    var s' := Invoice(s.data, AddItem(s.items, id));
    assert Step(s, AddRow(id)) == s';
    AddItemKeepsSubtotal(s.items, id);
    assert Subtotal(s'.items) == Subtotal(s.items);
  }

  /** A run of two events is the two steps in order. */
  lemma RunPair(s: Invoice, first: Event, second: Event)
    ensures Run(s, [first, second]) == Step(Step(s, first), second)
  {
    var evs := [first, second];
    var mid := Step(s, first);
    assert evs[0] == first && evs[1..] == [second];
    assert Run(s, evs) == Run(mid, [second]);
    assert [second][0] == second && [second][1..] == [];
    assert Run(mid, [second]) == Run(Step(mid, second), []);
  }

  /** Adding a row with an unused identity and then deleting that identity gives back the state. */
  lemma AddThenDeleteRow(s: Invoice, id: int)
    requires !HasId(s.items, id)
    ensures Run(s, [AddRow(id), DeleteRow(id)]) == s
  {
    RunPair(s, AddRow(id), DeleteRow(id));
    var s1 := Invoice(s.data, AddItem(s.items, id));
    assert Step(s, AddRow(id)) == s1;
    AddThenDelete(s.items, id);
    assert Step(s1, DeleteRow(id)) == Invoice(s.data, s.items);
  }

  // ---------------------------------------------------------------- a clock that moves forward

  /** No row's identity exceeds `b`. */
  predicate Bounded(items: seq<Item>, b: int)
  {
    forall i :: 0 <= i < |items| ==> items[i].id <= b
  }

  /** The clock bound after an event: an added row's reading becomes the new bound. */
  function NextBound(ev: Event, b: int): int
  {
    if ev.AddRow? then ev.newId else b
  }

  /** Every row added along the run takes a reading above the previous bound: the clock strictly increases. */
  predicate ClockAfter(evs: seq<Event>, b: int)
    decreases |evs|
  {
    evs == []
    || ((evs[0].AddRow? ==> evs[0].newId > b) && ClockAfter(evs[1..], NextBound(evs[0], b)))
  }

  /**
   * One event under a forward-moving clock: an added row's identity is not in
   * use, the rows stay below the new bound, and an identity at or below the
   * old bound that is absent stays absent.
   */
  lemma StepUnderClock(s: Invoice, ev: Event, b: int)
    requires Bounded(s.items, b)
    requires ev.AddRow? ==> ev.newId > b
    ensures ev.AddRow? ==> !HasId(s.items, ev.newId)
    ensures b <= NextBound(ev, b)
    ensures Bounded(Step(s, ev).items, NextBound(ev, b))
    ensures forall k :: k <= b && !HasId(s.items, k) ==> !HasId(Step(s, ev).items, k)
  {
    var r := Step(s, ev).items;
    match ev
    case EditHeader(e) =>
    case AddRow(id) =>
      assert forall i :: 0 <= i < |s.items| ==> r[i] == s.items[i];
    case EditRow(id, e) =>
      UpdateItemKeepsIds(s.items, id, e);
    case DeleteRow(id) =>
      assert forall i :: 0 <= i < |r| ==> r[i] in s.items;
  }

  /**
   * Under a strictly increasing clock that starts above every identity in
   * use, every add is fresh, and an identity at or below the starting bound
   * that is absent (in particular, one just deleted) never comes back.
   */
  lemma {:induction false} ClockRunIsFresh(s: Invoice, evs: seq<Event>, b: int, k: int)
    requires Bounded(s.items, b)
    requires ClockAfter(evs, b)
    ensures FreshAdds(s, evs)
    ensures k <= b && !HasId(s.items, k) ==> !HasId(Run(s, evs).items, k)
    decreases |evs|
  {
    if evs != [] {
      StepUnderClock(s, evs[0], b);
      ClockRunIsFresh(Step(s, evs[0]), evs[1..], NextBound(evs[0], b), k);
    }
  }

  /** Under a strictly increasing clock, a deleted identity is never reused by any later run of events. */
  lemma DeletedIdNeverReused(s: Invoice, id: int, evs: seq<Event>, b: int)
    requires Bounded(s.items, b)
    requires HasId(s.items, id)
    requires ClockAfter(evs, b)
    ensures !HasId(Run(Step(s, DeleteRow(id)), evs).items, id)
  {
    var s1 := Step(s, DeleteRow(id));
    StepUnderClock(s, DeleteRow(id), b);
    var i :| 0 <= i < |s.items| && s.items[i].id == id;
    ClockRunIsFresh(s1, evs, b, id);
  }

  // ---------------------------------------------------------------- corrected identity rule

  /**
   * The step with the corrected identity rule: an added row takes
   * `MintId(items, newId)`, which is `newId` whenever that is unused.
   */
  function MintedStep(s: Invoice, ev: Event): (r: Invoice)
    ensures !ev.AddRow? ==> r == Step(s, ev)
    ensures ev.AddRow? && !HasId(s.items, ev.newId) ==> r == Step(s, ev)
    ensures ev.AddRow? ==> |r.items| == |s.items| + 1 && r.items[..|s.items|] == s.items
    ensures ev.AddRow? ==> !HasId(s.items, r.items[|s.items|].id) && r.data == s.data
    ensures ev.AddRow? ==> r.items[|s.items|] == NewItem(r.items[|s.items|].id)
  {
    match ev
    case AddRow(now) => s.(items := AddItem(s.items, MintId(s.items, now)))
    case _ => Step(s, ev)
  }

  /** The state after a run of events under the corrected identity rule. */
  function MintedRun(s: Invoice, evs: seq<Event>): Invoice
    decreases |evs|
  {
    if evs == [] then s else MintedRun(MintedStep(s, evs[0]), evs[1..])
  }

  /** While the clock strictly increases, the corrected run is the run as written. */
  lemma {:induction false} MintedRunIsRunUnderClock(s: Invoice, evs: seq<Event>, b: int)
    requires Bounded(s.items, b)
    requires ClockAfter(evs, b)
    ensures MintedRun(s, evs) == Run(s, evs)
    decreases |evs|
  {
    if evs != [] {
      StepUnderClock(s, evs[0], b);
      MintedRunIsRunUnderClock(Step(s, evs[0]), evs[1..], NextBound(evs[0], b));
    }
  }

  /** Under the corrected rule and a strictly increasing clock, a deleted identity is never reused. */
  lemma MintedDeletedIdNeverReused(s: Invoice, id: int, evs: seq<Event>, b: int)
    requires Bounded(s.items, b)
    requires HasId(s.items, id)
    requires ClockAfter(evs, b)
    ensures !HasId(MintedRun(MintedStep(s, DeleteRow(id)), evs).items, id)
  {
    var s1 := Step(s, DeleteRow(id));
    StepUnderClock(s, DeleteRow(id), b);
    MintedRunIsRunUnderClock(s1, evs, b);
    DeletedIdNeverReused(s, id, evs, b);
  }

  /**
   * The corrected rule can bring back a deleted identity through its fallback:
   * after row 4 is deleted, a reading of 3 is in use, so the new row takes 3 + 1.
   */
  lemma MintedFallbackReusesDeletedId(d: InvoiceData)
    ensures MintedRun(Invoice(d, [Item(3, "a", 1.0, 1.0), Item(4, "b", 1.0, 1.0)]), [DeleteRow(4), AddRow(3)]).items
            == [Item(3, "a", 1.0, 1.0), NewItem(4)]
  {
    var s := Invoice(d, [Item(3, "a", 1.0, 1.0), Item(4, "b", 1.0, 1.0)]);
    var s1 := Invoice(d, [Item(3, "a", 1.0, 1.0)]);
    assert DeleteItem(s.items, 4) == s1.items;
    assert MintedStep(s, DeleteRow(4)) == s1;
    assert HasId(s1.items, 3);
    assert MaxId(s1.items) == 3;
    assert MintedStep(s1, AddRow(3)).items == [Item(3, "a", 1.0, 1.0), NewItem(4)];
    MintedRunPair(s, DeleteRow(4), AddRow(3));
  }

  /** A corrected run of two events is the two corrected steps in order. */
  lemma MintedRunPair(s: Invoice, first: Event, second: Event)
    ensures MintedRun(s, [first, second]) == MintedStep(MintedStep(s, first), second)
  {
    var evs := [first, second];
    var mid := MintedStep(s, first);
    assert evs[0] == first && evs[1..] == [second];
    assert MintedRun(s, evs) == MintedRun(mid, [second]);
    assert [second][0] == second && [second][1..] == [];
    assert MintedRun(mid, [second]) == MintedRun(MintedStep(mid, second), []);
  }

  /** Under the corrected rule every event keeps identities unique, with no premise on the identity. */
  lemma MintedStepKeepsValid(s: Invoice, ev: Event)
    requires Valid(s)
    ensures Valid(MintedStep(s, ev))
  {
    match ev
    case AddRow(now) => AddMintedKeepsUnique(s.items, now);
    case _ => StepKeepsValid(s, ev);
  }

  /** Under the corrected rule any run from a valid state ends in a valid state. */
  lemma {:induction false} MintedRunKeepsValid(s: Invoice, evs: seq<Event>)
    requires Valid(s)
    ensures Valid(MintedRun(s, evs))
    decreases |evs|
  {
    if evs != [] {
      MintedStepKeepsValid(s, evs[0]);
      MintedRunKeepsValid(MintedStep(s, evs[0]), evs[1..]);
    }
  }

  /** Under the corrected rule too, adding a row leaves the totals unchanged. */
  lemma MintedAddRowKeepsTotals(s: Invoice, now: int)
    ensures InvoiceTotals(MintedStep(s, AddRow(now))) == InvoiceTotals(s)
  {
    var id := MintId(s.items, now);
    assert MintedStep(s, AddRow(now)) == Invoice(s.data, AddItem(s.items, id));
    AddItemKeepsSubtotal(s.items, id);
  }

  /** Under the corrected rule, adding a row and deleting its minted identity always gives back the state. */
  lemma MintedAddThenDeleteRow(s: Invoice, now: int)
    ensures MintedRun(s, [AddRow(now), DeleteRow(MintId(s.items, now))]) == s
  {
    var id := MintId(s.items, now);
    var s1 := Invoice(s.data, AddItem(s.items, id));
    assert MintedStep(s, AddRow(now)) == s1;
    AddThenDelete(s.items, id);
    assert MintedStep(s1, DeleteRow(id)) == s;
    MintedRunPair(s, AddRow(now), DeleteRow(id));
  }
}
