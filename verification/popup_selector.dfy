/**
 * `PopupSelector`: inside an open popup the component renders one selector
 * per record of the clicked feature, and each selector shows the user's
 * popup content for its record only when the record's identifier is strictly
 * equal to the option chosen in the select box.
 */
module PopupSelection {
  import opened Wrappers
  import opened JsValues
  import opened Collections

  /** React's `defaultProps`: an `undefined` `selectedOption` becomes `''`;
      every other value, `null` included, is passed through. */
  function SelectedOrDefault(selectedOption: Value): (v: Value)
    ensures v != Undefined
    ensures selectedOption == Undefined ==> v == Str("")
    ensures selectedOption != Undefined ==> v == selectedOption
  {
    if selectedOption == Undefined then Str("") else selectedOption
  }

  /** One selector: `Some(data)` when `<Popup data={data} />` is rendered,
      `None` when nothing is. */
  function PopupSelector(multiIdentifier: string, data: Record, selectedOption: Value): (shown: Option<Record>)
    ensures shown.Some? ==> shown.value == data
    ensures shown.Some? ==> Get(data, multiIdentifier) != Undefined || selectedOption == Undefined
    ensures shown.Some? ==> !IsNaN(Get(data, multiIdentifier))
    ensures selectedOption != Undefined ==>
      (shown.Some? <==> Get(data, multiIdentifier) == selectedOption && !IsNaN(selectedOption))
    ensures selectedOption == Undefined ==> (shown.Some? <==> Get(data, multiIdentifier) == Str(""))
  {
    if StrictEquals(Get(data, multiIdentifier), SelectedOrDefault(selectedOption)) then Some(data) else None
  }

  predicate Shows(multiIdentifier: string, selectedOption: Value, r: Record) {
    PopupSelector(multiIdentifier, r, selectedOption).Some?
  }

  function ShowsFor(multiIdentifier: string, selectedOption: Value): Record -> bool {
    r => Shows(multiIdentifier, selectedOption, r)
  }

  /** The records whose content appears in the popup, in the order the
      selectors are rendered. */
  function Rendered(properties: seq<Record>, multiIdentifier: string, selectedOption: Value): seq<Record> {
    Where(properties, ShowsFor(multiIdentifier, selectedOption))
  }

  /** Over a feature's records, exactly those whose identifier is strictly
      equal to the selection (`''` when it is undefined) are rendered, each
      as often as it occurs, and in `properties` order. */
  lemma RenderedExactlyMatching(properties: seq<Record>, more: seq<Record>, multiIdentifier: string, selectedOption: Value)
    ensures forall r :: multiset(Rendered(properties, multiIdentifier, selectedOption))[r] ==
                        if StrictEquals(Get(r, multiIdentifier), SelectedOrDefault(selectedOption)) then multiset(properties)[r] else 0
    ensures Rendered(properties + more, multiIdentifier, selectedOption)
      == Rendered(properties, multiIdentifier, selectedOption) + Rendered(more, multiIdentifier, selectedOption)
  {
    WhereCounts(properties, ShowsFor(multiIdentifier, selectedOption));
    WhereConcat(properties, more, ShowsFor(multiIdentifier, selectedOption));
  }

  /** Right after a click the selection is the first record's identifier;
      when that identifier is neither undefined nor NaN, the first record is
      the first one rendered. */
  lemma ClickedRecordRendersFirst(properties: seq<Record>, multiIdentifier: string)
    requires |properties| > 0
    requires Get(properties[0], multiIdentifier) != Undefined
    requires !IsNaN(Get(properties[0], multiIdentifier))
    ensures var shown := Rendered(properties, multiIdentifier, Get(properties[0], multiIdentifier));
      |shown| > 0 && shown[0] == properties[0]
  {
    var keep := ShowsFor(multiIdentifier, Get(properties[0], multiIdentifier));
    assert properties == [properties[0]] + properties[1..];
    WhereConcat([properties[0]], properties[1..], keep);
    assert [properties[0]][..0] == [];
  }

  /** A selection that is undefined (the first record has no identifier)
      falls back to `''`, so that record itself is not rendered and only
      records whose identifier is the empty string are. */
  lemma UndefinedSelectionHidesUnidentified(properties: seq<Record>, multiIdentifier: string)
    requires |properties| > 0
    requires Get(properties[0], multiIdentifier) == Undefined
    ensures properties[0] !in Rendered(properties, multiIdentifier, Get(properties[0], multiIdentifier))
    ensures forall r :: r in Rendered(properties, multiIdentifier, Undefined) ==> Get(r, multiIdentifier) == Str("")
  {
    WhereCounts(properties, ShowsFor(multiIdentifier, Undefined));
    forall r | r in Rendered(properties, multiIdentifier, Undefined)
      ensures Get(r, multiIdentifier) == Str("")
    {
      assert multiset(Rendered(properties, multiIdentifier, Undefined))[r] > 0;
    }
  }

  /** NaN is not strictly equal to itself: a NaN selection renders nothing. */
  lemma NaNSelectionRendersNothing(properties: seq<Record>, multiIdentifier: string)
    ensures Rendered(properties, multiIdentifier, Num("NaN")) == []
  {
    var shown := Rendered(properties, multiIdentifier, Num("NaN"));
    WhereCounts(properties, ShowsFor(multiIdentifier, Num("NaN")));
    assert multiset(shown) == multiset{};
  }
}
