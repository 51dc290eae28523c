/**
 * The line item list and its three operations. Each builds a new list and
 * leaves the old one alone: append, map-by-id and filter-by-id.
 */
module LineItems {

  import opened InvoiceModel

  /** Some item of the list carries identity `id`. */
  predicate HasId(items: seq<Item>, id: int)
  {
    exists i :: 0 <= i < |items| && items[i].id == id
  }

  /** No identity occurs twice in the list. */
  predicate UniqueIds(items: seq<Item>)
  {
    forall i, j :: 0 <= i < j < |items| ==> items[i].id != items[j].id
  }

  /** The tail of a list with unique identities has unique identities and lacks the head's identity. */
  lemma UniqueTail(items: seq<Item>)
    requires UniqueIds(items)
    requires items != []
    ensures UniqueIds(items[1..])
    ensures !HasId(items[1..], items[0].id)
  {
  }

  /** How many items carry identity `id`. */
  function Count(items: seq<Item>, id: int): nat
  {
    if items == [] then 0
    else (if items[0].id == id then 1 else 0) + Count(items[1..], id)
  }

  // ---------------------------------------------------------------- add

  /** The row the "Add Item" button appends. */
  function NewItem(id: int): Item
  {
    Item(id, "", 1.0, 0.0)
  }

  /** A new list holding every old row followed by a blank row with identity `id`. */
  function AddItem(items: seq<Item>, id: int): (r: seq<Item>)
    ensures |r| == |items| + 1
    ensures r[..|items|] == items
    ensures r[|items|] == NewItem(id)
  {
    items + [NewItem(id)]
  }

  /** Appending a row whose identity is not yet in use keeps identities unique. */
  lemma AddItemKeepsUnique(items: seq<Item>, id: int)
    requires UniqueIds(items)
    requires !HasId(items, id)
    ensures UniqueIds(AddItem(items, id))
    ensures HasId(AddItem(items, id), id)
  {
    var r := AddItem(items, id);
    forall i, j | 0 <= i < j < |r| ensures r[i].id != r[j].id {
      if j == |items| {
        assert items[i].id != id;
      } else {
        assert r[i] == items[i] && r[j] == items[j];
      }
    }
    assert r[|items|].id == id;
  }

  // ---------------------------------------------------------------- update

  /** The field edits the item editor performs: description, quantity, rate. */
  datatype ItemEdit = SetDesc(string) | SetQty(real) | SetRate(real)

  /** `after` is `before` with exactly the field named by `e` replaced by its value. */
  predicate Edited(before: Item, after: Item, e: ItemEdit)
  {
    && after.id == before.id
    && match e
       case SetDesc(d) => after.desc == d && after.qty == before.qty && after.rate == before.rate
       case SetQty(q) => after.qty == q && after.desc == before.desc && after.rate == before.rate
       case SetRate(p) => after.rate == p && after.desc == before.desc && after.qty == before.qty
  }

  /** A copy of the row with the one field named by the edit replaced. */
  function ApplyEdit(it: Item, e: ItemEdit): (r: Item)
    ensures Edited(it, r, e)
  {
    match e
    case SetDesc(d) => it.(desc := d)
    case SetQty(q) => it.(qty := q)
    case SetRate(p) => it.(rate := p)
  }

  /** A new list in which every row with identity `id` is edited and every other row is copied as it is. */
  function UpdateItem(items: seq<Item>, id: int, e: ItemEdit): (r: seq<Item>)
    ensures |r| == |items|
    ensures forall i :: 0 <= i < |items| && items[i].id != id ==> r[i] == items[i]
    ensures forall i :: 0 <= i < |items| && items[i].id == id ==> Edited(items[i], r[i], e)
    ensures !HasId(items, id) ==> r == items
  {
    if items == [] then []
    else
      [if items[0].id == id then ApplyEdit(items[0], e) else items[0]]
      + UpdateItem(items[1..], id, e)
  }

  /** An edit never changes any identity, so it keeps identities unique. */
  lemma UpdateItemKeepsIds(items: seq<Item>, id: int, e: ItemEdit)
    ensures forall i :: 0 <= i < |items| ==> UpdateItem(items, id, e)[i].id == items[i].id
    ensures UniqueIds(items) ==> UniqueIds(UpdateItem(items, id, e))
    ensures forall k :: HasId(UpdateItem(items, id, e), k) <==> HasId(items, k)
  {
    var r := UpdateItem(items, id, e);
    assert forall i :: 0 <= i < |items| ==> r[i].id == items[i].id by {
      forall i | 0 <= i < |items| ensures r[i].id == items[i].id {
        if items[i].id == id { assert Edited(items[i], r[i], e); }
      }
    }
  }

  /** Applying the same edit twice is the same as applying it once. */
  lemma {:induction false} UpdateItemIdempotent(items: seq<Item>, id: int, e: ItemEdit)
    ensures UpdateItem(UpdateItem(items, id, e), id, e) == UpdateItem(items, id, e)
  {
    if items != [] {
      UpdateItemIdempotent(items[1..], id, e);
      var once := UpdateItem(items, id, e);
      assert once[1..] == UpdateItem(items[1..], id, e);
      assert once[0].id == items[0].id;
      if items[0].id == id {
        assert ApplyEdit(ApplyEdit(items[0], e), e) == ApplyEdit(items[0], e);
      }
    }
  }

  // ---------------------------------------------------------------- delete

  /** A new list holding, in order, the rows whose identity is not `id`. */
  function DeleteItem(items: seq<Item>, id: int): (r: seq<Item>)
    ensures forall x :: x in r <==> x in items && x.id != id
    ensures |r| == |items| - Count(items, id)
    ensures forall k :: HasId(r, k) <==> HasId(items, k) && k != id
    ensures !HasId(items, id) ==> r == items
  {
    if items == [] then []
    else if items[0].id == id then DeleteItem(items[1..], id)
    else [items[0]] + DeleteItem(items[1..], id)
  }

  /** Deleting works row by row: it commutes with concatenation, so order is kept. */
  lemma {:induction false} DeleteItemAppend(a: seq<Item>, b: seq<Item>, id: int)
    ensures DeleteItem(a + b, id) == DeleteItem(a, id) + DeleteItem(b, id)
  {
    if a == [] {
      assert a + b == b;
    } else {
      var x, a' := a[0], a[1..];
      assert a + b == [x] + (a' + b);
      DeleteItemAppend(a', b, id);
      var kept := if x.id == id then [] else [x];
      assert DeleteItem([x] + (a' + b), id) == kept + DeleteItem(a' + b, id);
      assert DeleteItem(a, id) == kept + DeleteItem(a', id);
      assert kept + (DeleteItem(a', id) + DeleteItem(b, id))
          == (kept + DeleteItem(a', id)) + DeleteItem(b, id);
    }
  }

  /** Putting a row in front of a list that does not use its identity keeps identities unique. */
  lemma ConsKeepsUnique(x: Item, rest: seq<Item>)
    requires UniqueIds(rest)
    requires !HasId(rest, x.id)
    ensures UniqueIds([x] + rest)
  {
    var r := [x] + rest;
    forall i, j | 0 <= i < j < |r| ensures r[i].id != r[j].id {
      assert r[j] == rest[j - 1];
      if i > 0 {
        assert r[i] == rest[i - 1];
      }
    }
  }

  /** Deleting leaves exactly the rows with another identity, so uniqueness is kept. */
  lemma {:induction false} DeleteItemKeepsUnique(items: seq<Item>, id: int)
    requires UniqueIds(items)
    ensures UniqueIds(DeleteItem(items, id))
  {
    if items != [] {
      var rest := items[1..];
      UniqueTail(items);
      DeleteItemKeepsUnique(rest, id);
      if items[0].id != id {
        ConsKeepsUnique(items[0], DeleteItem(rest, id));
      }
    }
  }

  /** Adding a row with a fresh identity and then deleting that identity restores the list. */
  lemma AddThenDelete(items: seq<Item>, id: int)
    requires !HasId(items, id)
    ensures DeleteItem(AddItem(items, id), id) == items
  {
    DeleteItemAppend(items, [NewItem(id)], id);
    assert DeleteItem([NewItem(id)], id) == [];
  }

  // ---------------------------------------------------------------- identities

  /** The largest identity in the list (0 for an empty list). */
  function MaxId(items: seq<Item>): (m: int)
    ensures forall i :: 0 <= i < |items| ==> items[i].id <= m
    ensures items != [] ==> HasId(items, m)
  {
    if items == [] then 0
    else
      var m := MaxId(items[1..]);
      if items[0].id >= m || items[1..] == [] then items[0].id else m
  }

  /**
   * An identity for a new row: the clock reading `now` when no row uses it,
   * otherwise one past the largest identity in use.
   */
  function MintId(items: seq<Item>, now: int): (id: int)
    ensures !HasId(items, id)
    ensures !HasId(items, now) ==> id == now
  {
    if HasId(items, now) then MaxId(items) + 1 else now
  }

  /** Rows added with minted identities keep identities unique. */
  lemma AddMintedKeepsUnique(items: seq<Item>, now: int)
    requires UniqueIds(items)
    ensures UniqueIds(AddItem(items, MintId(items, now)))
    ensures DeleteItem(AddItem(items, MintId(items, now)), MintId(items, now)) == items
  {
    AddItemKeepsUnique(items, MintId(items, now));
    AddThenDelete(items, MintId(items, now));
  }

  /**
   * The identity rule as written: two rows added in the same clock millisecond
   * (or after the clock steps back) share an identity, and deleting one of
   * them deletes both.
   */
  lemma ClockIdCollision(items: seq<Item>, now: int)
    requires !HasId(items, now)
    ensures !UniqueIds(AddItem(AddItem(items, now), now))
    ensures |DeleteItem(AddItem(AddItem(items, now), now), now)| == |items|
  {
    var twice := AddItem(AddItem(items, now), now);
    assert twice == items + [NewItem(now), NewItem(now)];
    assert twice[|items|].id == twice[|items| + 1].id;
    DeleteItemAppend(items, [NewItem(now), NewItem(now)], now);
    assert DeleteItem([NewItem(now), NewItem(now)], now) == [];
  }
}
