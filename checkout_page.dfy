/**
 * The selection list of client/src/pages/Checkout.tsx. Every handler builds
 * a new list from the old one, so each is a function from page state to
 * page state.
 */
module CheckoutPage {
  import opened JsText
  import opened ClientTypes

  /** One row of the checkout list: the item as listed, and how many to take. */
  datatype Selected = Selected(item: ClientItem, checkoutQuantity: int)

  /** The parts of the page state the handlers change. */
  datatype Page = Page(selected: seq<Selected>, searchTerm: string, error: string)

  const AlreadyAddedMessage := "Item already added to checkout list"

  predicate IsSelected(selected: seq<Selected>, id: string) {
    exists k :: 0 <= k < |selected| && selected[k].item.id == id
  }

  predicate DistinctIds(selected: seq<Selected>) {
    forall i, j :: 0 <= i < j < |selected| ==> selected[i].item.id != selected[j].item.id
  }

  /** Every row asks for no more than the listed stock. */
  predicate WithinStock(selected: seq<Selected>) {
    forall k :: 0 <= k < |selected| ==> selected[k].checkoutQuantity <= selected[k].item.quantity
  }

  /** `handleAddItem`: an item already listed only sets the error; otherwise it is appended with quantity 1 and the search is cleared. */
  function AddItem(p: Page, item: ClientItem): (q: Page)
    ensures IsSelected(p.selected, item.id) ==> q == p.(error := AlreadyAddedMessage)
    ensures !IsSelected(p.selected, item.id) ==>
      q.selected == p.selected + [Selected(item, 1)] && q.searchTerm == "" && q.error == p.error
  {
    if IsSelected(p.selected, item.id) then p.(error := AlreadyAddedMessage)
    else p.(selected := p.selected + [Selected(item, 1)], searchTerm := "")
  }

  /** `handleQuantityChange`: the matching row takes `min(quantity, stock)`; the others are kept. */
  function ChangeQuantity(selected: seq<Selected>, id: string, quantity: int): (r: seq<Selected>)
    ensures |r| == |selected|
    ensures forall k :: 0 <= k < |r| ==> r[k].item == selected[k].item
    ensures forall k :: 0 <= k < |r| && selected[k].item.id != id ==> r[k] == selected[k]
    ensures forall k :: 0 <= k < |r| && selected[k].item.id == id ==>
      r[k].checkoutQuantity <= selected[k].item.quantity
      && (r[k].checkoutQuantity == quantity || r[k].checkoutQuantity == selected[k].item.quantity)
      && (quantity <= selected[k].item.quantity ==> r[k].checkoutQuantity == quantity)
  {
    seq(|selected|, k requires 0 <= k < |selected| =>
      var s := selected[k];
      if s.item.id == id
      then s.(checkoutQuantity := if quantity < s.item.quantity then quantity else s.item.quantity)
      else s)
  }

  /** `handleRemoveItem`: drops every row with that id, keeping the rest in order. */
  function RemoveItem(selected: seq<Selected>, id: string): (r: seq<Selected>)
    ensures forall x :: x in r <==> x in selected && x.item.id != id
    ensures |r| <= |selected|
  {
    if selected == [] then []
    else
      var rest := RemoveItem(selected[1..], id);
      if selected[0].item.id == id then rest else [selected[0]] + rest
  }

  /** Removing from a concatenation removes from each part: the order of the kept rows is the input order. */
  lemma {:induction false} RemoveDistributes(a: seq<Selected>, b: seq<Selected>, id: string)
    ensures RemoveItem(a + b, id) == RemoveItem(a, id) + RemoveItem(b, id)
  {
    if a != [] {
      assert (a + b)[1..] == a[1..] + b;
      RemoveDistributes(a[1..], b, id);
    } else {
      assert a + b == b;
    }
  }

  /** Removing an id that is not listed changes nothing. */
  lemma {:induction false} RemoveAbsent(selected: seq<Selected>, id: string)
    requires !IsSelected(selected, id)
    ensures RemoveItem(selected, id) == selected
  {
    if selected != [] {
      assert !IsSelected(selected[1..], id) by {
        forall k | 0 <= k < |selected[1..]|
          ensures selected[1..][k].item.id != id
        {
          assert selected[1..][k] == selected[k + 1];
        }
      }
      RemoveAbsent(selected[1..], id);
    }
  }

  /** Removing an item right after adding it restores the list. */
  lemma RemoveUndoesAdd(p: Page, item: ClientItem)
    requires !IsSelected(p.selected, item.id)
    ensures RemoveItem(AddItem(p, item).selected, item.id) == p.selected
  {
    RemoveDistributes(p.selected, [Selected(item, 1)], item.id);
    RemoveAbsent(p.selected, item.id);
  }

  /** Add, change and remove keep the listed ids pairwise distinct. */
  lemma HandlersKeepIdsDistinct(p: Page, item: ClientItem, id: string, quantity: int)
    requires DistinctIds(p.selected)
    ensures DistinctIds(AddItem(p, item).selected)
    ensures DistinctIds(ChangeQuantity(p.selected, id, quantity))
    ensures DistinctIds(RemoveItem(p.selected, id))
  {
    RemoveKeepsDistinct(p.selected, id);
  }

  lemma {:induction false} RemoveKeepsDistinct(selected: seq<Selected>, id: string)
    requires DistinctIds(selected)
    ensures DistinctIds(RemoveItem(selected, id))
  {
    if selected != [] {
      var rest := RemoveItem(selected[1..], id);
      assert DistinctIds(selected[1..]) by {
        forall i, j | 0 <= i < j < |selected[1..]|
          ensures selected[1..][i].item.id != selected[1..][j].item.id
        {
          assert selected[1..][i] == selected[i + 1] && selected[1..][j] == selected[j + 1];
        }
      }
      RemoveKeepsDistinct(selected[1..], id);
      if selected[0].item.id != id {
        var r := [selected[0]] + rest;
        forall i, j | 0 <= i < j < |r|
          ensures r[i].item.id != r[j].item.id
        {
          if i == 0 {
            assert r[j] in rest;
            assert r[j] in selected[1..];
            var m :| 0 <= m < |selected[1..]| && selected[1..][m] == r[j];
            assert selected[m + 1] == r[j];
          } else {
            assert r[i] == rest[i - 1] && r[j] == rest[j - 1];
          }
        }
      }
    }
  }

  /**
   * The list never asks for more than the listed stock, provided an item is
   * added only while its stock is at least 1 (the Add button is disabled
   * at 0).
   */
  lemma HandlersKeepWithinStock(p: Page, item: ClientItem, id: string, quantity: int)
    requires WithinStock(p.selected)
    ensures item.quantity >= 1 ==> WithinStock(AddItem(p, item).selected)
    ensures WithinStock(ChangeQuantity(p.selected, id, quantity))
    ensures WithinStock(RemoveItem(p.selected, id))
  {
    var r := RemoveItem(p.selected, id);
    forall k | 0 <= k < |r|
      ensures r[k].checkoutQuantity <= r[k].item.quantity
    {
      assert r[k] in r;
    }
  }

  /** Nothing bounds the quantity from below: a row can be set to 0 or less. */
  lemma NoLowerBound(selected: seq<Selected>, k: nat, quantity: int)
    requires k < |selected| && DistinctIds(selected)
    requires quantity <= 0 && selected[k].item.quantity >= 0
    ensures ChangeQuantity(selected, selected[k].item.id, quantity)[k].checkoutQuantity == quantity
  {
  }

  /** `handleCheckout`'s payload: `(id, checkoutQuantity)` per row, same order and length. */
  function CheckoutPayload(selected: seq<Selected>): (payload: seq<(string, int)>)
    ensures |payload| == |selected|
    ensures forall k :: 0 <= k < |selected| ==> payload[k] == (selected[k].item.id, selected[k].checkoutQuantity)
  {
    seq(|selected|, k requires 0 <= k < |selected| => (selected[k].item.id, selected[k].checkoutQuantity))
  }

  /** The search: the lower-cased term occurs in the lower-cased name, part number or barcode. */
  predicate Matches(item: ClientItem, term: string) {
    var t := ToLower(term);
    Includes(ToLower(item.itemName), t) || Includes(ToLower(item.partNumber), t) || Includes(ToLower(item.barcode), t)
  }

  /** `filteredItems`. */
  function FilteredItems(items: seq<ClientItem>, term: string): (r: seq<ClientItem>)
    ensures forall x :: x in r <==> x in items && Matches(x, term)
    ensures |r| <= |items|
  {
    if items == [] then []
    else
      var rest := FilteredItems(items[1..], term);
      if Matches(items[0], term) then [items[0]] + rest else rest
  }

  /**
   * The filter distributes over concatenation, so the kept items stay in
   * input order, duplicates included; FilterSingle says which single items it keeps.
   */
  lemma {:induction false} FilterDistributes(a: seq<ClientItem>, b: seq<ClientItem>, term: string)
    ensures FilteredItems(a + b, term) == FilteredItems(a, term) + FilteredItems(b, term)
  {
    if a == [] {
      assert a + b == b;
    } else {
      var ab := a + b;
      assert ab[0] == a[0] && ab[1..] == a[1..] + b;
      FilterDistributes(a[1..], b, term);
      var head := if Matches(a[0], term) then [a[0]] else [];
      assert FilteredItems(ab, term) == head + FilteredItems(a[1..] + b, term);
      assert FilteredItems(a, term) == head + FilteredItems(a[1..], term);
    }
  }

  /** A single item is kept exactly when it matches. */
  lemma FilterSingle(x: ClientItem, term: string)
    ensures FilteredItems([x], term) == if Matches(x, term) then [x] else []
  {
    assert [x][1..] == [];
  }

  /** An item passes the filter exactly when the term occurs at some position of one of its three fields. */
  lemma MatchesIffOccurs(item: ClientItem, term: string)
    ensures Matches(item, term) <==>
      var t := ToLower(term);
      (exists i :: OccursAt(ToLower(item.itemName), t, i))
      || (exists i :: OccursAt(ToLower(item.partNumber), t, i))
      || (exists i :: OccursAt(ToLower(item.barcode), t, i))
  {
    var t := ToLower(term);
    IncludesIffOccurs(ToLower(item.itemName), t);
    IncludesIffOccurs(ToLower(item.partNumber), t);
    IncludesIffOccurs(ToLower(item.barcode), t);
  }

  /** An empty search keeps every item, in order. */
  lemma {:induction false} EmptySearchKeepsAll(items: seq<ClientItem>)
    ensures FilteredItems(items, "") == items
  {
    if items != [] {
      IncludesEmpty(ToLower(items[0].itemName));
      assert ToLower("") == "";
      EmptySearchKeepsAll(items[1..]);
    }
  }
}
