/**
 * The chart items (`IGraphItem`) and the pure list expressions the `Home`
 * component builds from them: the copy-on-write update, the splice of one
 * position, the vote total, the text-field coercion of counts, and the bars
 * that `renderBars` shows with their widths.
 */
module GraphItems {
  import opened Wrappers
  import opened JsNumbers

  /** One chart entry. Counts are integers: the only counts ever stored are 0, `parseInt` results and their +1/-1 steps. */
  datatype Item = Item(name: string, count: int)

  /** The entry `addNewItem` creates. */
  const BlankItem := Item("", 0)

  /** `graphItems[index]` is an item (and so truthy) rather than `undefined`. */
  predicate HasItem(items: seq<Item>, index: int) {
    0 <= index < |items|
  }

  /**
   * The list `updateItem(index, item)` stores. `Object.assign({}, graphItems[index], item)`
   * always yields `item`, since `item` carries both fields; when there is no item at
   * `index` (beyond the end, or negative) the new item is appended.
   */
  function UpdatedItems(items: seq<Item>, index: int, item: Item): (r: seq<Item>)
    ensures HasItem(items, index) ==> r == items[index := item]
    ensures !HasItem(items, index) ==> |r| == |items| + 1 && r[..|items|] == items && r[|items|] == item
  {
    if !HasItem(items, index) then items + [item]
    else items[..index] + [item] + items[index + 1..]
  }

  /** The copy after `splice(index, 1)`: the item at `index` is gone, the others keep their order. */
  function Spliced(items: seq<Item>, index: int): (r: seq<Item>)
    requires HasItem(items, index)
    ensures |r| == |items| - 1
    ensures forall j :: 0 <= j < index ==> r[j] == items[j]
    ensures forall j :: index <= j < |r| ==> r[j] == items[j + 1]
  {
    items[..index] + items[index + 1..]
  }

  /** Sum of the counts (`graphItem.count || 0` is the count itself for an integer). */
  function TotalVotes(items: seq<Item>): (r: int)
    ensures items == [] ==> r == 0
    ensures |items| == 1 ==> r == items[0].count
  {
    if items == [] then 0 else items[0].count + TotalVotes(items[1..])
  }

  /** The count a text field's content becomes: `parseInt`, with NaN coerced to 0. */
  function CountFromInput(text: string): (r: int)
    ensures r != 0 ==> ParseInt(text) == Some(r)
    ensures (forall i :: 0 <= i < |text| ==> !IsDecimalDigit(text[i])) ==> r == 0
  {
    match ParseInt(text)
    case None => 0
    case Some(v) => v
  }

  /** The count `subOneFromValue` stores: one less, but never below zero. */
  function Decremented(count: int): (r: int)
    ensures r >= 0
    ensures count >= 1 ==> r == count - 1
    ensures count <= 1 ==> r == 0
  {
    var newCount := count - 1;
    if newCount < 0 then 0 else newCount
  }

  lemma {:induction false} TotalVotesConcat(a: seq<Item>, b: seq<Item>)
    ensures TotalVotes(a + b) == TotalVotes(a) + TotalVotes(b)
  {
    if a == [] {
      assert a + b == b;
    } else {
      assert (a + b)[1..] == a[1..] + b;
      TotalVotesConcat(a[1..], b);
    }
  }

  /** The total changes by exactly the count written minus the count it replaces. */
  lemma TotalVotesUpdated(items: seq<Item>, index: int, item: Item)
    ensures HasItem(items, index) ==>
      TotalVotes(UpdatedItems(items, index, item)) == TotalVotes(items) - items[index].count + item.count
    ensures !HasItem(items, index) ==>
      TotalVotes(UpdatedItems(items, index, item)) == TotalVotes(items) + item.count
  {
    if HasItem(items, index) {
      var rest := items[index + 1..];
      TotalVotesConcat(items[..index] + [item], rest);
      TotalVotesConcat(items[..index], [item]);
      TotalVotesConcat(items[..index] + [items[index]], rest);
      TotalVotesConcat(items[..index], [items[index]]);
      assert items == items[..index] + [items[index]] + rest;
    } else {
      TotalVotesConcat(items, [item]);
    }
  }

  /** Removing an item removes exactly its count from the total. */
  lemma TotalVotesSpliced(items: seq<Item>, index: int)
    requires HasItem(items, index)
    ensures TotalVotes(Spliced(items, index)) == TotalVotes(items) - items[index].count
  {
    var rest := items[index + 1..];
    TotalVotesConcat(items[..index], rest);
    TotalVotesConcat(items[..index] + [items[index]], rest);
    TotalVotesConcat(items[..index], [items[index]]);
    assert items == items[..index] + [items[index]] + rest;
  }

  /** The splice drops one occurrence of the removed item and nothing else. */
  lemma SplicedMultiset(items: seq<Item>, index: int)
    requires HasItem(items, index)
    ensures multiset(Spliced(items, index)) + multiset{items[index]} == multiset(items)
  {
    assert items == items[..index] + [items[index]] + items[index + 1..];
  }

  /** With no negative count, no item's count exceeds the total and the total is not negative. */
  lemma {:induction false} CountAtMostTotal(items: seq<Item>, i: int)
    requires forall j :: 0 <= j < |items| ==> items[j].count >= 0
    requires 0 <= i < |items|
    ensures 0 <= items[i].count <= TotalVotes(items)
  {
    TotalVotesNonNegative(items[1..]);
    if i > 0 {
      CountAtMostTotal(items[1..], i - 1);
    }
  }

  lemma {:induction false} TotalVotesNonNegative(items: seq<Item>)
    requires forall j :: 0 <= j < |items| ==> items[j].count >= 0
    ensures TotalVotes(items) >= 0
  {
    if items != [] {
      TotalVotesNonNegative(items[1..]);
    }
  }

  /** A text field holding `${n}` or `${-n}` sets the count to that number. */
  lemma CountFromInputCases(n: nat)
    ensures CountFromInput(Decimal(n)) == n
    ensures CountFromInput("-" + Decimal(n)) == -(n as int)
  {
    ParseIntDecimal(n);
    ParseIntNegativeDecimal(n);
  }

  // ----- renderBars -----

  /** `(count / total) * 100`, exactly; a zero total gives NaN (0/0) or an infinity. */
  datatype Width = Percent(value: real) | NotANumber | Infinity(negative: bool)

  /** What a rendered bar displays: the name, the count and the `maxWidth` of the bar. */
  datatype Bar = Bar(name: string, count: int, width: Width)

  /** `graphItem.name && graphItem.count >= 0`: a non-empty name and a count that is not negative. */
  predicate IsShown(item: Item) {
    item.name != "" && item.count >= 0
  }

  /** The bar width `((count || 0) / totalCount) * 100` of `renderBars` (App.tsx:82), with real division in place of floating point. */
  function BarWidth(count: int, total: int): (w: Width)
    ensures w.Percent? <==> total != 0
    ensures w.Percent? ==> w.value * (total as real) == (count as real) * 100.0
  {
    if total != 0 then Percent((count as real) * 100.0 / (total as real))
    else if count == 0 then NotANumber
    else Infinity(count < 0)
  }

  /** One position of `renderBars`: a bar, or the empty string (`None`). */
  function RenderBar(item: Item, total: int): Option<Bar> {
    if IsShown(item) then Some(Bar(item.name, item.count, BarWidth(item.count, total))) else None
  }

  /** `graphItems.map(...)` inside `renderBars`, for a given vote total. */
  function RenderedBars(items: seq<Item>, total: int): (r: seq<Option<Bar>>)
    ensures |r| == |items|
    ensures forall i :: 0 <= i < |items| ==> (r[i].Some? <==> items[i].name != "" && items[i].count >= 0)
    ensures forall i :: 0 <= i < |items| && r[i].Some? ==>
      r[i].value == Bar(items[i].name, items[i].count, BarWidth(items[i].count, total))
  {
    if items == [] then [] else [RenderBar(items[0], total)] + RenderedBars(items[1..], total)
  }

  /** Sum of the counts of the items that show a bar. */
  function ShownVotes(items: seq<Item>): int {
    if items == [] then 0
    else (if IsShown(items[0]) then items[0].count else 0) + ShownVotes(items[1..])
  }

  /** Sum of the finite percentages among the rendered bars. */
  function WidthSum(bars: seq<Option<Bar>>): real {
    if bars == [] then 0.0
    else (if bars[0].Some? && bars[0].value.width.Percent? then bars[0].value.width.value else 0.0) + WidthSum(bars[1..])
  }

  /** For a non-zero total the shown bars together are `100 * shown votes / total` percent wide. */
  lemma {:induction false} WidthSumScales(items: seq<Item>, total: int)
    requires total != 0
    ensures WidthSum(RenderedBars(items, total)) * (total as real) == 100.0 * (ShownVotes(items) as real)
  {
    if items != [] {
      var bars := RenderedBars(items, total);
      assert bars[1..] == RenderedBars(items[1..], total);
      WidthSumScales(items[1..], total);
      var t := total as real;
      var w := if IsShown(items[0]) then (items[0].count as real) * 100.0 / t else 0.0;
      assert w * t == 100.0 * ((if IsShown(items[0]) then items[0].count else 0) as real);
      assert WidthSum(bars) == w + WidthSum(bars[1..]);
      assert WidthSum(bars) * t == w * t + WidthSum(bars[1..]) * t;
    }
  }

  lemma {:induction false} ShownVotesAll(items: seq<Item>)
    requires forall j :: 0 <= j < |items| ==> IsShown(items[j])
    ensures ShownVotes(items) == TotalVotes(items)
  {
    if items != [] {
      ShownVotesAll(items[1..]);
    }
  }

  /** When every item shows a bar and votes were cast, the bars add up to the full 100%. */
  lemma WidthsFillChart(items: seq<Item>, total: int)
    requires forall j :: 0 <= j < |items| ==> IsShown(items[j])
    requires total == TotalVotes(items) > 0
    ensures WidthSum(RenderedBars(items, total)) == 100.0
  {
    WidthSumScales(items, total);
    ShownVotesAll(items);
    CancelFactor(WidthSum(RenderedBars(items, total)), 100.0, total as real);
  }

  lemma CancelFactor(x: real, y: real, t: real)
    requires t > 0.0 && x * t == y * t
    ensures x == y
  {
  }

  /** With no negative count and a positive total, every bar is between 0% and 100% wide. */
  lemma WidthsWithinChart(items: seq<Item>, i: int)
    requires forall j :: 0 <= j < |items| ==> items[j].count >= 0
    requires TotalVotes(items) > 0
    requires 0 <= i < |items|
    ensures BarWidth(items[i].count, TotalVotes(items)).Percent?
    ensures 0.0 <= BarWidth(items[i].count, TotalVotes(items)).value <= 100.0
  {
    CountAtMostTotal(items, i);
    ShareBounds(items[i].count as real, TotalVotes(items) as real);
  }

  lemma ShareBounds(c: real, t: real)
    requires 0.0 <= c <= t && t > 0.0
    ensures 0.0 <= c * 100.0 / t <= 100.0
  {
  }

  /** The division is not guarded: a zero total makes a width NaN (count 0) or infinite (any other count). */
  lemma ZeroTotalWidths(count: int)
    ensures count == 0 ==> BarWidth(count, 0) == NotANumber
    ensures count > 0 ==> BarWidth(count, 0) == Infinity(false)
    ensures count < 0 ==> BarWidth(count, 0) == Infinity(true)
  {
  }

  /** Alice with 5 votes and Bob with 15: a quarter and three quarters of the chart. */
  lemma AliceAndBob()
    ensures TotalVotes([Item("Alice", 5), Item("Bob", 15)]) == 20
    ensures RenderedBars([Item("Alice", 5), Item("Bob", 15)], 20) ==
      [Some(Bar("Alice", 5, Percent(25.0))), Some(Bar("Bob", 15, Percent(75.0)))]
  {
    var items := [Item("Alice", 5), Item("Bob", 15)];
    assert items[1..] == [Item("Bob", 15)];
  }
}
