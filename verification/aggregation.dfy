/**
 * The marker aggregation both map components run in their effect: keep the
 * records the active filter accepts, group them with lodash's `_.groupBy` on
 * the text `${r[lng]} / ${r[lat]}`, and emit one GeoJSON Point feature per
 * group, placed at the group's first record.
 */
module Aggregation {
  import opened Wrappers
  import opened JsValues
  import opened Collections

  /** The `filter` part of a filter button: `{ prop, value }`. */
  datatype FilterSpec = FilterSpec(prop: string, value: Value)

  /** A filter button of a map layer: `{ label, color, filter }` (the label
      is called `caption` here, `label` being a Dafny keyword). */
  datatype FilterItem = FilterItem(caption: string, color: string, filter: FilterSpec)

  /** The `latMarkerPropName` and `lngMarkerPropName` props. */
  datatype FieldNames = FieldNames(lat: string, lng: string)

  /** `Number(v || 0)`: 0 for a falsy value, otherwise the Number conversion
      of the value itself, which the model keeps as an uninterpreted term. */
  datatype Coordinate = Zero | NumberOf(raw: Value)

  /** A GeoJSON Point, in GeoJSON's `[lng, lat]` order. */
  datatype Point = Point(lng: Coordinate, lat: Coordinate)

  /** `{ type: "Feature", geometry: { type: "Point", coordinates }, properties }`. */
  datatype Feature = Feature(coordinates: Point, properties: seq<Record>)

  /** The `features` of `{ type: "FeatureCollection", features }`. */
  type FeatureCollection = seq<Feature>

  // ---------------------------------------------------------------------
  // Filtering
  // ---------------------------------------------------------------------

  /** The filter callback: everything passes when no filter is active,
      otherwise exactly the records with `m[prop] === value`. */
  predicate Keeps(mapFilter: Option<FilterItem>, m: Record) {
    mapFilter.None? || StrictEquals(Get(m, mapFilter.value.filter.prop), mapFilter.value.filter.value)
  }

  function KeepsFilter(mapFilter: Option<FilterItem>): Record -> bool {
    m => Keeps(mapFilter, m)
  }

  /** `markerData.filter(...)`. */
  function Filtered(markerData: seq<Record>, mapFilter: Option<FilterItem>): seq<Record> {
    Where(markerData, KeepsFilter(mapFilter))
  }

  /** With no filter every record is kept; with a filter exactly the records
      whose `prop` field is strictly equal to its `value`, each as often as
      it occurs. */
  lemma FilteredKeepsMatching(markerData: seq<Record>, mapFilter: Option<FilterItem>)
    ensures mapFilter.None? ==> Filtered(markerData, mapFilter) == markerData
    ensures forall m :: multiset(Filtered(markerData, mapFilter))[m]
                     == if Keeps(mapFilter, m) then multiset(markerData)[m] else 0
  {
    WhereCounts(markerData, KeepsFilter(mapFilter));
    if mapFilter.None? {
      WhereAll(markerData, KeepsFilter(mapFilter));
    }
  }

  /** Filtering keeps the input order. */
  lemma FilteredKeepsOrder(a: seq<Record>, b: seq<Record>, mapFilter: Option<FilterItem>)
    ensures Filtered(a + b, mapFilter) == Filtered(a, mapFilter) + Filtered(b, mapFilter)
  {
    WhereConcat(a, b, KeepsFilter(mapFilter));
  }

  // ---------------------------------------------------------------------
  // Grouping
  // ---------------------------------------------------------------------

  /** The `_.groupBy` key: the raw lng and lat values as template-literal
      text, joined by " / ". */
  function GroupKey(r: Record, names: FieldNames): string {
    Text(Get(r, names.lng)) + " / " + Text(Get(r, names.lat))
  }

  function KeyOf(names: FieldNames): Record -> string {
    r => GroupKey(r, names)
  }

  /** A property name made only of decimal digits, which `Object.keys` would
      list before all other keys, in numeric order. */
  predicate IsArrayIndexLike(k: string) {
    |k| > 0 && forall i :: 0 <= i < |k| ==> '0' <= k[i] <= '9'
  }

  /** No group key looks like an array index (each holds a space), so
      `Object.keys` lists the groups in the order `_.groupBy` created them. */
  lemma GroupKeyIsNotArrayIndex(r: Record, names: FieldNames)
    ensures !IsArrayIndexLike(GroupKey(r, names))
  {
    var k := GroupKey(r, names);
    assert k[|Text(Get(r, names.lng))|] == ' ';
  }

  // ---------------------------------------------------------------------
  // Features
  // ---------------------------------------------------------------------

  function CoordinateOf(v: Value): Coordinate {
    if Falsy(v) then Zero else NumberOf(v)
  }

  /** `[Number(r[lng] || 0), Number(r[lat] || 0)]`. */
  function PointOf(r: Record, names: FieldNames): (p: Point)
    ensures p.lng == Zero <==> Falsy(Get(r, names.lng))
    ensures p.lat == Zero <==> Falsy(Get(r, names.lat))
    ensures p.lng.NumberOf? ==> p.lng.raw == Get(r, names.lng)
    ensures p.lat.NumberOf? ==> p.lat.raw == Get(r, names.lat)
  {
    Point(CoordinateOf(Get(r, names.lng)), CoordinateOf(Get(r, names.lat)))
  }

  /** The key a feature was grouped under: that of its first record. */
  function FeatureKey(f: Feature, names: FieldNames): string
    requires |f.properties| > 0
  {
    GroupKey(f.properties[0], names)
  }

  /** All records of all features, feature after feature. */
  function AllProperties(fc: FeatureCollection): seq<Record> {
    if |fc| == 0 then [] else fc[0].properties + AllProperties(fc[1..])
  }

  /** The feature collection the effect builds from non-empty marker data:
      every feature holds at least one record, sits at the position of its
      first record, and holds only records with its own key; no two features
      share a key. */
  function Aggregate(markerData: seq<Record>, mapFilter: Option<FilterItem>, names: FieldNames): (fc: FeatureCollection)
    ensures forall i :: 0 <= i < |fc| ==> |fc[i].properties| > 0
    ensures forall i :: 0 <= i < |fc| ==> fc[i].coordinates == PointOf(fc[i].properties[0], names)
    ensures forall i, j :: 0 <= i < |fc| && 0 <= j < |fc[i].properties| ==>
      GroupKey(fc[i].properties[j], names) == FeatureKey(fc[i], names)
    ensures forall i, j :: 0 <= i < j < |fc| ==> FeatureKey(fc[i], names) != FeatureKey(fc[j], names)
  {
    var gs := GroupBy(Filtered(markerData, mapFilter), KeyOf(names));
    GroupByWellFormed(Filtered(markerData, mapFilter), KeyOf(names));
    assert forall i :: 0 <= i < |gs| ==> GroupKeys(gs)[i] == gs[i].key;
    seq(|gs|, i requires 0 <= i < |gs| => Feature(PointOf(gs[i].members[0], names), gs[i].members))
  }

  lemma {:induction false} AllPropertiesOfGroups(gs: seq<Group<Record, string>>, fc: FeatureCollection)
    requires |fc| == |gs|
    requires forall i :: 0 <= i < |gs| ==> fc[i].properties == gs[i].members
    ensures AllProperties(fc) == Flatten(gs)
  {
    if |gs| > 0 {
      AllPropertiesOfGroups(gs[1..], fc[1..]);
    }
  }

  /** The features' records are a permutation of the filtered records. */
  lemma AggregateIsPartition(markerData: seq<Record>, mapFilter: Option<FilterItem>, names: FieldNames)
    ensures multiset(AllProperties(Aggregate(markerData, mapFilter, names))) == multiset(Filtered(markerData, mapFilter))
  {
    var filtered := Filtered(markerData, mapFilter);
    AllPropertiesOfGroups(GroupBy(filtered, KeyOf(names)), Aggregate(markerData, mapFilter, names));
    GroupByIsPartition(filtered, KeyOf(names));
  }

  lemma {:induction false} PropertyIsListed(fc: FeatureCollection, i: nat, m: Record)
    requires i < |fc| && m in fc[i].properties
    ensures m in AllProperties(fc)
  {
    if i > 0 {
      PropertyIsListed(fc[1..], i - 1, m);
    }
  }

  /** Every record shown on the map passes the active filter, and without a
      filter every marker record is shown, as often as it occurs. */
  lemma AggregateRespectsFilter(markerData: seq<Record>, mapFilter: Option<FilterItem>, names: FieldNames)
    ensures forall f, m :: f in Aggregate(markerData, mapFilter, names) && m in f.properties ==> Keeps(mapFilter, m)
    ensures mapFilter.None? ==>
      multiset(AllProperties(Aggregate(markerData, mapFilter, names))) == multiset(markerData)
  {
    var fc := Aggregate(markerData, mapFilter, names);
    AggregateIsPartition(markerData, mapFilter, names);
    FilteredKeepsMatching(markerData, mapFilter);
    forall f, m | f in fc && m in f.properties
      ensures Keeps(mapFilter, m)
    {
      var i :| 0 <= i < |fc| && fc[i] == f;
      PropertyIsListed(fc, i, m);
      assert multiset(Filtered(markerData, mapFilter))[m] > 0;
    }
  }

  /** Features follow the first occurrence of their key among the filtered
      records, and each feature lists exactly the filtered records with its
      key, in their filtered order. */
  lemma AggregateOrder(markerData: seq<Record>, mapFilter: Option<FilterItem>, names: FieldNames)
    ensures var fc := Aggregate(markerData, mapFilter, names);
      var filtered := Filtered(markerData, mapFilter);
      var keys := KeysOf(filtered, KeyOf(names));
      && |fc| == |Distinct(keys)|
      && (forall i :: 0 <= i < |fc| ==> FeatureKey(fc[i], names) == Distinct(keys)[i])
      && (forall i :: 0 <= i < |fc| ==> fc[i].properties == WithKey(filtered, KeyOf(names), FeatureKey(fc[i], names)))
      && (forall i, j :: 0 <= i < j < |fc| ==>
            FirstIndex(keys, FeatureKey(fc[i], names)) < FirstIndex(keys, FeatureKey(fc[j], names)))
  {
    var filtered := Filtered(markerData, mapFilter);
    var gs := GroupBy(filtered, KeyOf(names));
    var fc := Aggregate(markerData, mapFilter, names);
    var keys := KeysOf(filtered, KeyOf(names));
    GroupByWellFormed(filtered, KeyOf(names));
    GroupByKeysFirstSeen(filtered, KeyOf(names));
    GroupByMembersInOrder(filtered, KeyOf(names));
    assert forall i :: 0 <= i < |fc| ==> FeatureKey(fc[i], names) == gs[i].key == GroupKeys(gs)[i];
    forall i, j | 0 <= i < j < |fc|
      ensures FirstIndex(keys, FeatureKey(fc[i], names)) < FirstIndex(keys, FeatureKey(fc[j], names))
    {
      DistinctFollowsFirstOccurrence(keys, i, j);
    }
  }

  /** There are as many features as distinct keys among the filtered records. */
  lemma AggregateCount(markerData: seq<Record>, mapFilter: Option<FilterItem>, names: FieldNames)
    ensures |Aggregate(markerData, mapFilter, names)| == |KeySet(Filtered(markerData, mapFilter), KeyOf(names))|
  {
    var filtered := Filtered(markerData, mapFilter);
    GroupByCount(filtered, KeyOf(names));
    assert |Aggregate(markerData, mapFilter, names)| == |GroupBy(filtered, KeyOf(names))|;
  }

  /** Marker data that the filter empties out still yields a collection, one
      without features. */
  lemma AggregateOfNothing(markerData: seq<Record>, mapFilter: Option<FilterItem>, names: FieldNames)
    requires forall m :: m in markerData ==> !Keeps(mapFilter, m)
    ensures Aggregate(markerData, mapFilter, names) == []
  {
    var filtered := Filtered(markerData, mapFilter);
    FilteredKeepsMatching(markerData, mapFilter);
    assert multiset(filtered) == multiset{};
  }
}
