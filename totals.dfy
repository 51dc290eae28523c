/**
 * The derived totals: subtotal as the running sum of qty * rate over the
 * rows, the tax amount from the percentage rate, and the grand total.
 * Arithmetic is exact over `real`; the source's floating point is not modelled.
 */
module Totals {

  import opened InvoiceModel
  import opened LineItems

  /** A row's amount: never stored, always derived. */
  function Amount(it: Item): real
  {
    it.qty * it.rate
  }

  /** Reference definition: the sum of the rows' amounts. */
  function Sum(items: seq<Item>): real
  {
    if items == [] then 0.0 else Amount(items[0]) + Sum(items[1..])
  }

  /** The running total, row by row from the front, starting from `acc` (the subtotal starts from 0). */
  function Reduce(items: seq<Item>, acc: real): (r: real)
    ensures r == acc + Sum(items)
  {
    if items == [] then acc else Reduce(items[1..], acc + Amount(items[0]))
  }

  /** The subtotal, computed as the source does (a fold from 0). */
  function Subtotal(items: seq<Item>): (r: real)
    ensures r == Sum(items)
  {
    Reduce(items, 0.0)
  }

  /** The sum is additive over concatenation. */
  lemma {:induction false} SumAppend(a: seq<Item>, b: seq<Item>)
    ensures Sum(a + b) == Sum(a) + Sum(b)
  {
    if a == [] {
      assert a + b == b;
    } else {
      assert (a + b)[1..] == a[1..] + b;
      SumAppend(a[1..], b);
    }
  }

  /** The three money values shown beneath the table. */
  datatype Summary = Summary(subtotal: real, taxAmount: real, total: real)

  /** The subtotal, the tax as the percentage `taxRate` of the subtotal, and their sum. */
  function ComputeTotals(items: seq<Item>, taxRate: real): (t: Summary)
    ensures t.subtotal == Sum(items)
    ensures t.taxAmount * 100.0 == t.subtotal * taxRate
    ensures t.total == t.subtotal + t.taxAmount
    ensures t.total * 100.0 == t.subtotal * (100.0 + taxRate)
  {
    var subtotal := Subtotal(items);
    var taxAmount := subtotal * (taxRate / 100.0);
    Summary(subtotal, taxAmount, subtotal + taxAmount)
  }

  /** With a zero tax rate there is no tax and the total is the subtotal. */
  lemma ZeroTaxTotal(items: seq<Item>)
    ensures ComputeTotals(items, 0.0).taxAmount == 0.0
    ensures ComputeTotals(items, 0.0).total == ComputeTotals(items, 0.0).subtotal
  {
  }

  /** Rows with non-negative quantity and rate have a non-negative sum. */
  lemma {:induction false} SumNonNegative(items: seq<Item>)
    requires forall i :: 0 <= i < |items| ==> items[i].qty >= 0.0 && items[i].rate >= 0.0
    ensures Sum(items) >= 0.0
  {
    if items != [] {
      SumNonNegative(items[1..]);
      assert Amount(items[0]) >= 0.0;
    }
  }

  /** Non-negative rows and a non-negative tax rate give 0 <= subtotal <= total. */
  lemma TotalsOrdered(items: seq<Item>, taxRate: real)
    requires forall i :: 0 <= i < |items| ==> items[i].qty >= 0.0 && items[i].rate >= 0.0
    requires taxRate >= 0.0
    ensures 0.0 <= ComputeTotals(items, taxRate).subtotal <= ComputeTotals(items, taxRate).total
  {
    SumNonNegative(items);
    var t := ComputeTotals(items, taxRate);
    assert t.taxAmount * 100.0 >= 0.0;
  }

  /** The appended row has rate 0, so adding a row leaves the subtotal unchanged. */
  lemma AddItemKeepsSubtotal(items: seq<Item>, id: int)
    ensures Sum(AddItem(items, id)) == Sum(items)
  {
    SumAppend(items, [NewItem(id)]);
    assert Sum([NewItem(id)]) == 0.0;
  }

  /** The sum of a row put in front of a list. */
  lemma SumCons(x: Item, rest: seq<Item>)
    ensures Sum([x] + rest) == Amount(x) + Sum(rest)
  {
    assert ([x] + rest)[1..] == rest;
  }

  /** A description edit leaves the subtotal unchanged. */
  lemma {:induction false} DescEditKeepsSubtotal(items: seq<Item>, id: int, d: string)
    ensures Sum(UpdateItem(items, id, SetDesc(d))) == Sum(items)
  {
    if items != [] {
      var rest := items[1..];
      var head := if items[0].id == id then ApplyEdit(items[0], SetDesc(d)) else items[0];
      var tail := UpdateItem(rest, id, SetDesc(d));
      assert UpdateItem(items, id, SetDesc(d)) == [head] + tail;
      assert Amount(head) == Amount(items[0]) by {
        assert head.qty == items[0].qty && head.rate == items[0].rate;
      }
      SumCons(head, tail);
      DescEditKeepsSubtotal(rest, id, d);
    }
  }

  /** With unique identities, an edit of row `k` changes the subtotal by that row's change of amount. */
  lemma {:induction false} UpdateItemSubtotal(items: seq<Item>, k: nat, e: ItemEdit)
    requires UniqueIds(items)
    requires k < |items|
    ensures Sum(UpdateItem(items, items[k].id, e))
         == Sum(items) - Amount(items[k]) + Amount(ApplyEdit(items[k], e))
  {
    var id := items[k].id;
    var rest := items[1..];
    var head := if items[0].id == id then ApplyEdit(items[0], e) else items[0];
    assert UpdateItem(items, id, e) == [head] + UpdateItem(rest, id, e);
    SumCons(head, UpdateItem(rest, id, e));
    UniqueTail(items);
    if k == 0 {
      assert UpdateItem(rest, id, e) == rest;
    } else {
      assert items[k] == rest[k - 1];
      assert items[0].id != id;
      UpdateItemSubtotal(rest, k - 1, e);
    }
  }

  /** With unique identities, deleting row `k` by its identity subtracts exactly its amount. */
  lemma {:induction false} DeleteItemSubtotal(items: seq<Item>, k: nat)
    requires UniqueIds(items)
    requires k < |items|
    ensures Sum(DeleteItem(items, items[k].id)) == Sum(items) - Amount(items[k])
  {
    var id := items[k].id;
    var rest := items[1..];
    UniqueTail(items);
    if k == 0 {
      assert DeleteItem(items, id) == DeleteItem(rest, id) == rest;
    } else {
      assert items[k] == rest[k - 1];
      assert items[0].id != id;
      assert DeleteItem(items, id) == [items[0]] + DeleteItem(rest, id);
      SumCons(items[0], DeleteItem(rest, id));
      DeleteItemSubtotal(rest, k - 1);
    }
  }

  /** Worked example: one row of 1 x 500 at 0% tax. */
  lemma SingleRowExample(id: int)
    ensures ComputeTotals([Item(id, "Web Development", 1.0, 500.0)], 0.0)
         == Summary(500.0, 0.0, 500.0)
  {
    var items := [Item(id, "Web Development", 1.0, 500.0)];
    assert items[1..] == [];
    assert Sum(items) == 500.0;
  }

  /** Worked example: rows 2 x 150 and 1 x 50 at 10% tax. */
  lemma TwoRowExample(id1: int, id2: int, d1: string, d2: string)
    ensures ComputeTotals([Item(id1, d1, 2.0, 150.0), Item(id2, d2, 1.0, 50.0)], 10.0)
         == Summary(350.0, 35.0, 385.0)
  {
    var items := [Item(id1, d1, 2.0, 150.0), Item(id2, d2, 1.0, 50.0)];
    assert items[1..][1..] == [];
    assert Sum(items[1..]) == 50.0;
    assert Sum(items) == 350.0;
  }

  /** Worked example: no rows give zero totals at any tax rate. */
  lemma EmptyListExample(taxRate: real)
    ensures ComputeTotals([], taxRate) == Summary(0.0, 0.0, 0.0)
  {
  }
}
