/**
 * The `Home` component's chart-item state. `graphItems` is the one field; every
 * handler computes a new list and stores it, as each `setGraphItems` call does.
 */
module HomeComponent {
  import opened Wrappers
  import opened JsNumbers
  import opened GraphItems
  import opened ElementIds

  /** How a handler ends: it stored a new list, it did nothing, or it threw a
      `TypeError` by reading a field of `graphItems[index]` when that is `undefined`. */
  datatype Outcome = Applied | Ignored | Threw

  class Home {
    var items: seq<Item>

    /** `useState(blankItems)`. */
    constructor ()
      ensures items == []
    {
      items := [];
    }

    /** Replace the item at `index`, or append `item` when there is none there. */
    method UpdateItem(index: int, item: Item)
      modifies this
      ensures items == UpdatedItems(old(items), index, item)
    {
      items := UpdatedItems(items, index, item);
    }

    /** The `forEach` accumulation of all counts. */
    method GetTotalVotes() returns (total: int)
      ensures total == TotalVotes(items)
    {
      total := 0;
      for i := 0 to |items|
        invariant total == TotalVotes(items[..i])
      {
        assert items[..i + 1] == items[..i] + [items[i]];
        TotalVotesConcat(items[..i], [items[i]]);
        assert TotalVotes([items[i]]) == items[i].count by {
          assert [items[i]][1..] == [];
        }
        total := total + items[i].count;
      }
      assert items[..|items|] == items;
    }

    /** One entry per item, in order: a bar exactly for the items with a name and a count that is not negative. */
    method RenderBars() returns (bars: seq<Option<Bar>>)
      ensures |bars| == |items|
      ensures forall i :: 0 <= i < |items| ==> (bars[i].Some? <==> items[i].name != "" && items[i].count >= 0)
      ensures forall i :: 0 <= i < |items| && bars[i].Some? ==>
        bars[i].value == Bar(items[i].name, items[i].count, BarWidth(items[i].count, TotalVotes(items)))
    {
      var totalCount := GetTotalVotes();
      bars := RenderedBars(items, totalCount);
    }

    /** Append a blank item: an update at the index one past the end. */
    method AddNewItem()
      modifies this
      ensures items == old(items) + [BlankItem]
    {
      UpdateItem(|items|, BlankItem);
    }

    /** Raise the count at `index` by one; reading the count of a missing item throws. */
    method AddOneToValue(index: int) returns (outcome: Outcome)
      modifies this
      ensures outcome == if HasItem(old(items), index) then Applied else Threw
      ensures HasItem(old(items), index) ==>
        items == old(items)[index := Item(old(items)[index].name, old(items)[index].count + 1)]
      ensures !HasItem(old(items), index) ==> items == old(items)
    {
      if !HasItem(items, index) {
        return Threw;
      }
      var currentCount := items[index].count;
      UpdateItem(index, Item(items[index].name, currentCount + 1));
      outcome := Applied;
    }

    /** Lower the count at `index` by one, but not below zero; a missing item is skipped. */
    method SubOneFromValue(index: int) returns (outcome: Outcome)
      modifies this
      ensures outcome == if HasItem(old(items), index) then Applied else Ignored
      ensures HasItem(old(items), index) ==>
        items == old(items)[index := Item(old(items)[index].name, Decremented(old(items)[index].count))]
      ensures HasItem(old(items), index) ==> items[index].count >= 0
      ensures !HasItem(old(items), index) ==> items == old(items)
    {
      if !HasItem(items, index) {
        return Ignored;
      }
      var currentItem := items[index];
      var newCount := currentItem.count - 1;
      if newCount < 0 {
        newCount := 0;
      }
      UpdateItem(index, Item(items[index].name, newCount));
      outcome := Applied;
    }

    /** The name field with id `id` changed to `newValue`. */
    method UpdateName(id: string, newValue: string) returns (outcome: Outcome)
      modifies this
      ensures IndexFromId(id).None? ==> outcome == Ignored && items == old(items)
      ensures IndexFromId(id).Some? && HasItem(old(items), IndexFromId(id).value) ==>
        var i := IndexFromId(id).value;
        outcome == Applied && items == old(items)[i := Item(newValue, old(items)[i].count)]
      ensures IndexFromId(id).Some? && !HasItem(old(items), IndexFromId(id).value) ==>
        outcome == Threw && items == old(items)
    {
      var inputIndex := IndexFromId(id);
      if inputIndex.None? {
        return Ignored;
      }
      var currentIndex := inputIndex.value;
      if !HasItem(items, currentIndex) {
        return Threw;
      }
      UpdateItem(currentIndex, Item(newValue, items[currentIndex].count));
      outcome := Applied;
    }

    /** The count field with id `id` changed to `newValue`: `parseInt`, NaN stored as 0. */
    method UpdateValue(id: string, newValue: string) returns (outcome: Outcome)
      modifies this
      ensures IndexFromId(id).None? ==> outcome == Ignored && items == old(items)
      ensures IndexFromId(id).Some? && HasItem(old(items), IndexFromId(id).value) ==>
        var i := IndexFromId(id).value;
        outcome == Applied && items == old(items)[i := Item(old(items)[i].name, CountFromInput(newValue))]
      ensures IndexFromId(id).Some? && !HasItem(old(items), IndexFromId(id).value) ==>
        outcome == Threw && items == old(items)
    {
      var newValueNumber := ParseInt(newValue);
      var inputIndex := IndexFromId(id);
      if inputIndex.None? {
        return Ignored;
      }
      var currentIndex := inputIndex.value;
      if !HasItem(items, currentIndex) {
        return Threw;
      }
      var newCount := if newValueNumber.None? then 0 else newValueNumber.value;
      UpdateItem(currentIndex, Item(items[currentIndex].name, newCount));
      outcome := Applied;
    }

    /** The remove button with id `id` clicked: splice a copy when an item exists at the index. */
    method RemoveItem(id: string) returns (outcome: Outcome)
      modifies this
      ensures IndexFromId(id).Some? && HasItem(old(items), IndexFromId(id).value) ==>
        outcome == Applied && items == Spliced(old(items), IndexFromId(id).value)
      ensures !(IndexFromId(id).Some? && HasItem(old(items), IndexFromId(id).value)) ==>
        outcome == Ignored && items == old(items)
    {
      var inputIndex := IndexFromId(id);
      if inputIndex.None? {
        return Ignored;
      }
      var currentItems := items;
      var currentIndex := inputIndex.value;
      if !HasItem(currentItems, currentIndex) {
        return Ignored;
      }
      currentItems := Spliced(currentItems, currentIndex);
      items := currentItems;
      outcome := Applied;
    }

    /** Back to the blank list. */
    method RemoveAllItems()
      modifies this
      ensures items == []
    {
      items := [];
    }
  }

  /** Five interactions in a row, followed only through the contracts above. */
  method AliceAndBobSession()
  {
    var home := new Home();
    home.AddNewItem();
    home.UpdateItem(0, Item("Alice", 5));
    home.AddNewItem();
    home.UpdateItem(1, Item("Bob", 15));
    assert home.items == [Item("Alice", 5), Item("Bob", 15)];
    var total := home.GetTotalVotes();
    AliceAndBob();
    assert total == 20;
    var bars := home.RenderBars();
    assert bars[0] == Some(Bar("Alice", 5, Percent(25.0)));
    IndexFromElementId(0, RemoveButton);
    var outcome := home.RemoveItem(ElementId(0, RemoveButton));
    assert outcome == Applied && home.items == [Item("Bob", 15)];
    home.RemoveAllItems();
    home.RemoveAllItems();
    assert home.items == [];
  }
}
