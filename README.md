# stream-graph chart items, in Dafny

A model of the logic inside the `Home` component of the stream-graph chart
builder (`src/App.tsx`). The component keeps an ordered list of chart items
(`IGraphItem`: a name and a count). Its handlers add, edit, step, remove and clear
items. From that list it derives the vote total and the bars of the preview chart.
Form widgets carry ids of the form `graph-item-<index>-<part>`. The name, count
and remove handlers find their item by reading the first run of digits in the id;
the add and subtract buttons get the index from their closures instead.

- `wrappers.dfy`: `Option`, which stands for `undefined`, `null` and `NaN`.
- `js_numbers.dfy`: JavaScript's one-argument `parseInt` (leading white space,
  sign, `0x` prefix, longest digit prefix, `NaN` when there are no digits) and
  the decimal rendering `${n}` of a non-negative integer; parseInt undoes the
  rendering.
- `graph_items.dfy`: the item datatype and the pure list expressions. These are
  the copy-on-write update, the splice, the total, the text-to-count coercion,
  and the bars with their widths. It also holds the lemmas: totals after each
  change, widths between 0% and 100%, and widths adding up to 100%.
- `element_ids.dfy`: the id templates, the first-digit-run extraction
  (`match(/[\d]+/g)[0]`) and the round trip from each rendered id back to its index.
- `home.dfy`: class `Home`, whose one field `items` is `graphItems`. Every
  handler is a method that stores a new sequence, as `setGraphItems` does.
  `getTotalVotes` is a loop with an accumulator, proved equal to the recursive
  `TotalVotes`.

Behaviour of the code worth noting:
- `updateItem` with no item at `index` appends the item, whatever the index is (past
  the end, or negative). It never rejects the index and never leaves a gap.
- The bar width divides by the total with no guard. A zero total gives `NaN`
  for a zero count and an infinite width for any other count (`ZeroTotalWidths`).
  A negative count elsewhere in the list can make the total zero or negative.
- The eligibility rule is a non-empty name and `count >= 0` (App.tsx:81); a count
  of 0 renders a bar, a negative one does not.
- Handlers that read `graphItems[i].name` or `.count` before updating
  (`updateName`, `updateValue`, `addOneToValue`) throw a `TypeError` when there is
  no item at `i`. The model returns `Threw` and leaves the list unchanged.
  `subOneFromValue` and `removeItem` check first, and return `Ignored`.

Bar widths are exact real numbers (`count * 100 / total`), not floating point.
Counts are unbounded integers.

## Model

| member | source | states |
|---|---|---|
| GraphItems.UpdatedItems | src/App.tsx:38-51 | at an existing index the list is the old one with that position replaced by the item; with no item there the old list is kept as a prefix and the item is added at the end, one longer |
| GraphItems.Spliced | src/App.tsx:231-236 | the spliced copy is one shorter; items before the index are unchanged, items after it move down one place |
| GraphItems.SplicedMultiset | src/App.tsx:234-236 | the splice removes exactly one occurrence of the item at the index and nothing else |
| GraphItems.TotalVotes | src/App.tsx:53-62 | the total of no items is 0, and of one item its count; the lemmas below state the rest |
| GraphItems.TotalVotesConcat | src/App.tsx:53-62 | the total of two lists put together is the sum of their totals |
| GraphItems.TotalVotesUpdated | src/App.tsx:38-51 | after an update the total changes by the new count minus the replaced count, or grows by the new count when the item is appended |
| GraphItems.TotalVotesSpliced | src/App.tsx:226-239 | removing an item lowers the total by exactly its count |
| GraphItems.TotalVotesNonNegative | src/App.tsx:53-62 | with no negative count the total is not negative |
| GraphItems.CountAtMostTotal | src/App.tsx:53-62 | with no negative count, every count lies between 0 and the total |
| GraphItems.Decremented | src/App.tsx:163-168 | the decremented count is never negative: one less for counts of at least 1, and 0 otherwise |
| GraphItems.CountFromInput | src/App.tsx:145-151 | a count other than 0 is what parseInt read from the text; text with no decimal digit gives 0 |
| GraphItems.CountFromInputCases | src/App.tsx:143-151 | a count field holding a decimal number, with or without a minus sign, sets that number |
| GraphItems.BarWidth | src/App.tsx:82 | a width is a finite percentage exactly when the total is not 0, and then the width times the total is 100 times the count |
| GraphItems.RenderedBars | src/App.tsx:80-96 | one entry per item, in order; an entry is a bar exactly when the name is non-empty and the count is not negative, and that bar carries the item's name, its count and its width against the total |
| GraphItems.WidthSumScales | src/App.tsx:82 | for a non-zero total, the widths of the shown bars add up to 100 times the shown votes divided by the total |
| GraphItems.WidthsFillChart | src/App.tsx:78-82 | when every item shows a bar and the total is positive, the widths add up to exactly 100% |
| GraphItems.WidthsWithinChart | src/App.tsx:82 | with no negative count and a positive total, every width is a finite percentage from 0 to 100 |
| GraphItems.ZeroTotalWidths | src/App.tsx:82 | with a zero total, a width is NaN for count 0, positive infinity for a positive count and negative infinity for a negative one |
| GraphItems.AliceAndBob | src/App.tsx:77-96 | Alice with 5 votes and Bob with 15 give a total of 20 and bars of 25% and 75% |
| GraphItems.ShareBounds | src/App.tsx:82 | a share of a positive total that is no larger than the total is between 0% and 100% |
| JsNumbers.TrimStart | src/App.tsx:145 | the trimmed text is a suffix of the input; everything cut off is white space, and what is left does not start with white space |
| JsNumbers.LeadingDigits | src/App.tsx:145 | the result is the longest prefix made only of digits of the radix |
| JsNumbers.ParseDigits | src/App.tsx:145 | NaN exactly when the text does not start with a digit; otherwise a value that is not negative |
| JsNumbers.Decimal | src/App.tsx:105 | the rendering of an index is a non-empty string of decimal digits with no leading zero |
| JsNumbers.DecimalValue | src/App.tsx:105 | the digits of the rendering of n have the value n |
| JsNumbers.ParseIntOfDigits | src/App.tsx:138 | parseInt of a non-empty digit string is the value of its digits |
| JsNumbers.ParseIntDecimal | src/App.tsx:145 | parseInt gives back n from the decimal rendering of n |
| JsNumbers.ParseIntNegativeDecimal | src/App.tsx:145 | parseInt gives back -n from a minus sign followed by the rendering of n |
| JsNumbers.ParseInt | src/App.tsx:138-150 | a number is read only from text that holds a decimal digit, so text without one (the empty string included) is NaN; a negative number needs a minus sign after the leading white space |
| JsNumbers.ParseSigned | src/App.tsx:145 | a number is read only when a decimal digit is present, and a negative one only behind a leading minus sign |
| JsNumbers.ParseUnsigned | src/App.tsx:145 | a number read without a sign is not negative, and the text starts with a decimal digit (the `0` of a hex prefix included) |
| JsNumbers.LeadingDigitsBeforeNonDigit | src/App.tsx:135 | a digit run followed by a non-digit is exactly the longest digit prefix |
| ElementIds.PartSuffix | src/App.tsx:105-123 | the text after the index in each widget id starts with a dash and holds no digit |
| ElementIds.ElementId | src/App.tsx:105-123 | the first digit run of a widget id is exactly the decimal rendering of its index |
| ElementIds.FirstDigitRun | src/App.tsx:135 | the match is null exactly when the id has no digit; otherwise it is a non-empty run of digits |
| ElementIds.IndexFromId | src/App.tsx:135-138 | an index is found exactly when the id has a digit, and it is never negative |
| ElementIds.FirstDigitRunSkipsPrefix | src/App.tsx:135 | characters that are not digits in front of an id do not change its first digit run |
| ElementIds.FirstDigitRunOfDigits | src/App.tsx:135 | an id that starts with a digit run followed by a non-digit has that run as its first match |
| ElementIds.IndexFromElementId | src/App.tsx:105-138 | the digit-run extraction recovers i from each of the name, count, add, subtract and remove ids rendered for index i; the name, count and remove handlers rely on it |
| ElementIds.ElementIdInjective | src/App.tsx:100-126 | widgets of different rows never share an id |
| HomeComponent.Home.constructor | src/App.tsx:20-22 | the item list starts empty |
| HomeComponent.Home.UpdateItem | src/App.tsx:38-51 | the stored list is the updated list of the old one |
| HomeComponent.Home.GetTotalVotes | src/App.tsx:53-62 | the accumulated total equals the sum of all counts, which is 0 for the empty list |
| HomeComponent.Home.RenderBars | src/App.tsx:77-97 | one entry per item, a bar exactly for items with a name and a count that is not negative, with its width against the current total |
| HomeComponent.Home.AddNewItem | src/App.tsx:221-224 | the list becomes the old list followed by one blank item |
| HomeComponent.Home.AddOneToValue | src/App.tsx:155-158 | at an existing index the count goes up by one, the name and the other items stay the same; otherwise the handler throws and nothing changes |
| HomeComponent.Home.SubOneFromValue | src/App.tsx:160-172 | at an existing index the count becomes the clamped decrement and is never negative, the name and the other items stay the same; otherwise nothing happens |
| HomeComponent.Home.UpdateName | src/App.tsx:132-141 | an id with no digit is ignored; an id naming an existing item changes only that item's name; an id naming a missing item throws and changes nothing |
| HomeComponent.Home.UpdateValue | src/App.tsx:143-153 | like UpdateName, but the count becomes the parsed number or 0 when parsing fails, and the name is kept |
| HomeComponent.Home.RemoveItem | src/App.tsx:226-239 | when the id names an existing item the list becomes that item spliced out; otherwise the list is unchanged |
| HomeComponent.Home.RemoveAllItems | src/App.tsx:241-243 | the list becomes empty, and a second call leaves it empty |

## Left out

- JSX, the widget library (text fields, switches, slider, modal, tooltips, icons) and the colour picker: these are presentation, and they hold none of the list logic.
- React's `useState` and re-rendering: each `setGraphItems` call is an assignment to the field `items`.
- Chart title, the four colours, the picker toggles, the style switches and the chart width (lines 174-219, 310-317): these setters only pass values through. The one logic in them, the slider's `typeof newValue === 'number'` guard, is not modelled.
- `getTextOutlineStyle` and `chartWidthLabel`: these build CSS and label strings.
- The form numbering `index + 1` and the React keys: these are presentation only.
- Floating point: widths are exact real ratios, so rounding and the appended `"%"` string are not modelled. Counts are unbounded integers, so the loss of precision beyond 2^53 is not modelled.
- JsNumbers.ParseInt: results are exact integers; the rounding of digit strings longer than double precision can hold is not modelled.
- The `count || 0` and `if (graphItem)` guards in `getTotalVotes`: a stored count is always an integer and a stored item always an object, so the `NaN` or `undefined` values they guard against cannot occur in the model.
