/**
 * The ids the item form gives its inputs and buttons, `graph-item-${index}-<part>`,
 * and the way the change and click handlers turn an id back into a list index:
 * the first match of `/[\d]+/g` (the first maximal run of decimal digits) read by `parseInt`.
 */
module ElementIds {
  import opened Wrappers
  import opened JsNumbers

  /** The widgets of one form row that carry an index in their id. */
  datatype Part = NameField | CountField | AddButton | SubButton | RemoveButton

  /** The part of a widget's id after its index: a dash, then a word without digits. */
  function PartSuffix(part: Part): (r: string)
    ensures r != [] && r[0] == '-' && NoDigits(r)
  {
    match part
    case NameField => "-name"
    case CountField => "-count"
    case AddButton => "-add"
    case SubButton => "-sub"
    case RemoveButton => "-remove"
  }

  const IdPrefix := "graph-item-"

  /** The id of a form widget for the item at `index`; its first digit run is the rendered index. */
  function ElementId(index: nat, part: Part): (r: string)
    ensures FirstDigitRun(r) == Some(Decimal(index))
  {
    var d := Decimal(index);
    var suffix := PartSuffix(part);
    assert NoDigits(IdPrefix);
    assert IdPrefix + d + suffix == IdPrefix + (d + suffix);
    FirstDigitRunSkipsPrefix(IdPrefix, d + suffix);
    FirstDigitRunOfDigits(d, suffix);
    IdPrefix + d + suffix
  }

  predicate NoDigits(s: string) {
    forall i :: 0 <= i < |s| ==> !IsDecimalDigit(s[i])
  }

  /** `s.match(/[\d]+/g)[0]`: the first maximal run of digits, or `None` when the match is `null`. */
  function FirstDigitRun(s: string): (r: Option<string>)
    ensures r.None? <==> NoDigits(s)
    ensures r.Some? ==> r.value != [] && forall i :: 0 <= i < |r.value| ==> IsDecimalDigit(r.value[i])
  {
    if s == [] then None
    else if IsDecimalDigit(s[0]) then Some(LeadingDigits(s, 10))
    else
      assert forall i :: 1 <= i < |s| ==> s[i] == s[1..][i - 1];
      FirstDigitRun(s[1..])
  }

  /** The index a handler recovers from an element id; `None` when the id has no digit. */
  function IndexFromId(id: string): (r: Option<int>)
    ensures r.None? <==> NoDigits(id)
    ensures r.Some? ==> r.value >= 0
  {
    match FirstDigitRun(id)
    case None => None
    case Some(d) =>
      ParseIntOfDigits(d);
      ParseInt(d)
  }

  /** Characters without a digit in front of the id do not change its first digit run. */
  lemma {:induction false} FirstDigitRunSkipsPrefix(p: string, rest: string)
    requires NoDigits(p)
    ensures FirstDigitRun(p + rest) == FirstDigitRun(rest)
  {
    if p == [] {
      assert p + rest == rest;
    } else {
      assert (p + rest)[1..] == p[1..] + rest;
      assert !IsDecimalDigit((p + rest)[0]);
      FirstDigitRunSkipsPrefix(p[1..], rest);
    }
  }

  /** A run of digits followed by a non-digit is the first digit run. */
  lemma FirstDigitRunOfDigits(d: string, rest: string)
    requires d != [] && forall i :: 0 <= i < |d| ==> IsDecimalDigit(d[i])
    requires rest == [] || !IsDecimalDigit(rest[0])
    ensures FirstDigitRun(d + rest) == Some(d)
  {
    assert IsDecimalDigit((d + rest)[0]);
    LeadingDigitsBeforeNonDigit(d, rest);
  }

  /**
   * Reading the first digit run of any rendered id gives back the index it was rendered for.
   * The name, count and remove handlers rely on this; the add and subtract buttons
   * get their index from the closure instead.
   */
  lemma IndexFromElementId(index: nat, part: Part)
    ensures IndexFromId(ElementId(index, part)) == Some(index)
  {
    ParseIntDecimal(index);
  }

  /** Widgets of different rows never share an id. */
  lemma ElementIdInjective(i: nat, j: nat, p: Part, q: Part)
    requires ElementId(i, p) == ElementId(j, q)
    ensures i == j
  {
    IndexFromElementId(i, p);
    IndexFromElementId(j, q);
  }
}
