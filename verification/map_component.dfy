/**
 * The state both map components keep in React hooks, and the handlers that
 * update it: the active base layer and filter, the aggregated feature
 * collection, and the open popup with its selected record.
 */
module MapComponent {
  import opened Wrappers
  import opened JsValues
  import opened Collections
  import opened Aggregation
  import opened PopupSelection

  /** An entry of the `mapLayers` prop: `{ label, filters }` (the label is
      called `caption` here, `label` being a Dafny keyword). */
  datatype Layer = Layer(caption: string, filters: seq<FilterItem>)

  /** A react-select option `{ value, label }`. */
  datatype SelectOption = SelectOption(value: Value, text: Value)

  predicate Labelled(mapLayer: Option<string>, l: Layer) {
    mapLayer == Some(l.caption)
  }

  function LabelledAs(mapLayer: Option<string>): Layer -> bool {
    l => Labelled(mapLayer, l)
  }

  /** The filter buttons of the panel: `mapLayers.filter(l => l.label ===
      mapLayer)`, falling back to `[{ filters: [] }]` when nothing matches,
      then the `filters` of the first entry. */
  function ActiveFilters(mapLayers: seq<Layer>, mapLayer: Option<string>): seq<FilterItem> {
    var matching := Where(mapLayers, LabelledAs(mapLayer));
    if |matching| == 0 then [] else matching[0].filters
  }

  /** The buttons are those of the first layer carrying the active label, or
      none at all when no layer carries it (in particular when no layer is
      active). */
  lemma ActiveFiltersOfFirstMatch(mapLayers: seq<Layer>, mapLayer: Option<string>)
    ensures (forall i :: 0 <= i < |mapLayers| ==> mapLayer != Some(mapLayers[i].caption)) ==>
      ActiveFilters(mapLayers, mapLayer) == []
    ensures forall i :: 0 <= i < |mapLayers| && mapLayer == Some(mapLayers[i].caption)
                        && (forall j :: 0 <= j < i ==> mapLayer != Some(mapLayers[j].caption)) ==>
      ActiveFilters(mapLayers, mapLayer) == mapLayers[i].filters
  {
    var keep := LabelledAs(mapLayer);
    if forall i :: 0 <= i < |mapLayers| ==> mapLayer != Some(mapLayers[i].caption) {
      WhereNone(mapLayers, keep);
    }
    forall i | 0 <= i < |mapLayers| && mapLayer == Some(mapLayers[i].caption)
               && (forall j :: 0 <= j < i ==> mapLayer != Some(mapLayers[j].caption))
      ensures ActiveFilters(mapLayers, mapLayer) == mapLayers[i].filters
    {
      WhereFirst(mapLayers, keep, i);
    }
  }

  /** The option built from a record: its identifier as both value and label. */
  function OptionFor(r: Record, multiIdentifier: string): (o: SelectOption)
    ensures o.value == o.text == Get(r, multiIdentifier)
  {
    SelectOption(Get(r, multiIdentifier), Get(r, multiIdentifier))
  }

  /** The options of the popup's select box, one per record of the feature. */
  function SelectOptions(properties: seq<Record>, multiIdentifier: string): (opts: seq<SelectOption>)
    ensures |opts| == |properties|
    ensures forall i :: 0 <= i < |opts| ==> opts[i] == OptionFor(properties[i], multiIdentifier)
  {
    seq(|properties|, i requires 0 <= i < |properties| => OptionFor(properties[i], multiIdentifier))
  }

  /** Choosing any option of the select box shows at least the record the
      option was built from, unless its identifier is undefined or NaN. */
  lemma ChosenOptionShowsItsRecord(properties: seq<Record>, multiIdentifier: string, i: nat)
    requires i < |properties|
    ensures var v := SelectOptions(properties, multiIdentifier)[i].value;
      v != Undefined && !IsNaN(v) ==> properties[i] in Rendered(properties, multiIdentifier, v)
  {
    var v := SelectOptions(properties, multiIdentifier)[i].value;
    if v != Undefined && !IsNaN(v) {
      RenderedExactlyMatching(properties, [], multiIdentifier, v);
      assert properties[i] in properties;
      assert multiset(Rendered(properties, multiIdentifier, v))[properties[i]] > 0;
    }
  }

  /**
   * One mounted map component. The props other than `markerData` are fixed
   * for its lifetime; `markerData` is passed to each recomputation.
   */
  class MapView {
    const mapLayers: seq<Layer>
    const enablePopup: bool
    const multiIdentifier: string
    const names: FieldNames

    var geoJSON: Option<FeatureCollection>
    var popupInfo: Option<Feature>
    var popupSelect: Option<SelectOption>
    var mapLayer: Option<string>
    var mapFilter: Option<FilterItem>

    /** The state every handler keeps: a layer is active exactly when there
        are layers, and it is one of them; an active filter is one of the
        active layer's buttons; every feature holds records; and the popup is
        never open without a selection taken from its own records. */
    ghost predicate Valid()
      reads this
    {
      && (mapLayer.None? <==> |mapLayers| == 0)
      && (mapLayer.Some? ==> exists i :: 0 <= i < |mapLayers| && mapLayers[i].caption == mapLayer.value)
      && (mapFilter.Some? ==> mapFilter.value in ActiveFilters(mapLayers, mapLayer))
      && (geoJSON.Some? ==> forall f :: f in geoJSON.value ==> |f.properties| > 0)
      && (popupInfo.Some? <==> popupSelect.Some?)
      && (popupInfo.Some? ==> |popupInfo.value.properties| > 0)
      && (popupInfo.Some? ==> popupSelect.value in SelectOptions(popupInfo.value.properties, multiIdentifier))
    }

    /** What holds even between the two setter calls of a click or a close:
        an open popup has a selection. */
    predicate PopupHasSelection()
      reads this
    {
      popupInfo.Some? ==> popupSelect.Some?
    }

    /** The first render: the first layer is active, when there is one;
        there is no filter, no collection and no popup. */
    constructor (mapLayers: seq<Layer>, enablePopup: bool, multiIdentifier: string, names: FieldNames)
      ensures Valid()
      ensures this.mapLayers == mapLayers && this.enablePopup == enablePopup
      ensures this.multiIdentifier == multiIdentifier && this.names == names
      ensures mapLayer == if |mapLayers| > 0 then Some(mapLayers[0].caption) else None
      ensures mapFilter.None? && geoJSON.None? && popupInfo.None? && popupSelect.None?
    {
      this.mapLayers := mapLayers;
      this.enablePopup := enablePopup;
      this.multiIdentifier := multiIdentifier;
      this.names := names;
      geoJSON := None;
      popupInfo := None;
      popupSelect := None;
      mapLayer := if |mapLayers| > 0 then Some(mapLayers[0].caption) else None;
      mapFilter := None;
    }

    /** The aggregation effect: empty marker data leaves the collection as
        it was, even under a filter; otherwise it is replaced, by a
        collection without features when the filter rejects every record. */
    method RecomputeGeoJSON(markerData: seq<Record>)
      requires Valid()
      modifies this`geoJSON
      ensures Valid()
      ensures |markerData| == 0 ==> geoJSON == old(geoJSON)
      ensures |markerData| > 0 ==> geoJSON == Some(Aggregate(markerData, mapFilter, names))
      ensures |markerData| > 0 && (forall m :: m in markerData ==> !Keeps(mapFilter, m)) ==>
        geoJSON == Some([])
    {
      if |markerData| == 0 {
        return;
      }
      var fc := Aggregate(markerData, mapFilter, names);
      forall f | f in fc
        ensures |f.properties| > 0
      {
        var i :| 0 <= i < |fc| && fc[i] == f;
      }
      if forall m :: m in markerData ==> !Keeps(mapFilter, m) {
        AggregateOfNothing(markerData, mapFilter, names);
      }
      geoJSON := Some(fc);
    }

    /** `onBaseLayerChange`: the filter is cleared and the chosen layer
        becomes the active one; the popup is left alone. */
    method ChangeBaseLayer(name: string)
      requires Valid()
      requires exists i :: 0 <= i < |mapLayers| && mapLayers[i].caption == name
      modifies this`mapFilter, this`mapLayer
      ensures Valid()
      ensures mapFilter.None? && mapLayer == Some(name)
    {
      mapFilter := None;
      mapLayer := Some(name);
    }

    /** A filter button, which the panel shows only while the active layer's
        label is truthy: that button's filter becomes the active one. */
    method ChooseFilter(item: FilterItem)
      requires Valid()
      requires mapLayer.Some? && mapLayer.value != ""
      requires item in ActiveFilters(mapLayers, mapLayer)
      modifies this`mapFilter
      ensures Valid()
      ensures mapFilter == Some(item)
    {
      mapFilter := Some(item);
    }

    /** "Limpar filtro", shown only while a filter is active: the filter is
        cleared. */
    method ClearFilter()
      requires Valid()
      requires mapLayer.Some? && mapLayer.value != ""
      requires mapFilter.Some?
      modifies this`mapFilter
      ensures Valid()
      ensures mapFilter.None?
    {
      mapFilter := None;
    }

    /** The records the open popup renders, which line up with the select
        box: only records of the clicked feature, only those whose identifier
        is strictly equal to the selection, in the feature's order. Being
        open implies a selection, so `popupSelect.value` is always defined
        here. */
    function PopupContents(): (shown: seq<Record>)
      reads this
      requires Valid() && popupInfo.Some?
      ensures forall r :: r in shown ==> r in popupInfo.value.properties
      ensures forall r :: r in shown ==>
        StrictEquals(Get(r, multiIdentifier), SelectedOrDefault(popupSelect.value.value))
      ensures forall r :: (r in popupInfo.value.properties
                           && StrictEquals(Get(r, multiIdentifier), SelectedOrDefault(popupSelect.value.value))) ==>
        r in shown
    {
      var properties := popupInfo.value.properties;
      RenderedExactlyMatching(properties, [], multiIdentifier, popupSelect.value.value);
      assert forall r :: r in Rendered(properties, multiIdentifier, popupSelect.value.value) ==>
        multiset(Rendered(properties, multiIdentifier, popupSelect.value.value))[r] > 0;
      assert forall r :: r in properties ==> multiset(properties)[r] > 0;
      Rendered(properties, multiIdentifier, popupSelect.value.value)
    }

    /** A click on a feature of the collection opens its popup with the
        first record's identifier selected, so that record is the first one
        rendered whenever its identifier is neither undefined nor NaN. */
    method ClickFeature(feature: Feature)
      requires Valid()
      requires geoJSON.Some? && feature in geoJSON.value
      modifies this`popupSelect, this`popupInfo
      ensures Valid()
      ensures popupInfo == Some(feature)
      ensures popupSelect == Some(OptionFor(feature.properties[0], multiIdentifier))
      ensures var id := Get(feature.properties[0], multiIdentifier);
        id != Undefined && !IsNaN(id) ==> |PopupContents()| > 0 && PopupContents()[0] == feature.properties[0]
    {
      assert SelectOptions(feature.properties, multiIdentifier)[0] == OptionFor(feature.properties[0], multiIdentifier);
      popupSelect := Some(OptionFor(feature.properties[0], multiIdentifier));
      assert PopupHasSelection();
      popupInfo := Some(feature);
      var id := Get(feature.properties[0], multiIdentifier);
      if id != Undefined && !IsNaN(id) {
        ClickedRecordRendersFirst(feature.properties, multiIdentifier);
      }
    }

    /** The popup's `onClose`: popup and selection are cleared together. */
    method ClosePopup()
      requires Valid()
      requires popupInfo.Some? && enablePopup
      modifies this`popupInfo, this`popupSelect
      ensures Valid()
      ensures popupInfo.None? && popupSelect.None?
    {
      popupInfo := None;
      assert PopupHasSelection();
      popupSelect := None;
    }

    /** The select box's `onChange`: the chosen option, one of the open
        feature's records, becomes the selection; the popup stays open and
        shows at least the record the option came from. */
    method SelectChange(option: SelectOption)
      requires Valid()
      requires popupInfo.Some? && enablePopup
      requires option in SelectOptions(popupInfo.value.properties, multiIdentifier)
      modifies this`popupSelect
      ensures Valid()
      ensures popupSelect == Some(option)
      ensures option.value != Undefined && !IsNaN(option.value) ==> |PopupContents()| > 0
    {
      var i :| 0 <= i < |popupInfo.value.properties| && SelectOptions(popupInfo.value.properties, multiIdentifier)[i] == option;
      ChosenOptionShowsItsRecord(popupInfo.value.properties, multiIdentifier, i);
      popupSelect := Some(option);
    }
  }
}
