# leaflet-extended, modelled in Dafny

leaflet-extended is a React map component built on react-leaflet. It has two
variants with the same logic: `LeafletExtended` and `MyComponent`. Callers
give it marker records (`markerData`), the names of the latitude and
longitude fields, an identifier field (`multiIdentifier`), and a list of base
layers, each with filter buttons. This project models the component's logic
and proves properties of it:

- **The marker aggregation** (`Aggregation`). Whenever the data or the filter
  changes, the component:
  - keeps the records the active filter accepts (`m[prop] === value`, or all
    records when no filter is active);
  - groups them with lodash `_.groupBy` on the text `` `${r[lng]} / ${r[lat]}` ``;
  - emits one GeoJSON Point feature per group. The feature is placed at the
    group's first record, `[Number(lng || 0), Number(lat || 0)]`, and carries
    the whole group as `properties`.

  The grouping is modelled generically in `Collections`. There, `GroupBy` is
  lodash's insertion-ordered dictionary, built one element at a time. It is
  proved equal to independent definitions:
  - the distinct keys in first-seen order;
  - each key's elements in input order;
  - a permutation of the input;
  - as many groups as distinct keys.
- **The component state** (`MapComponent.MapView`). The class holds the hook
  state `geoJSON`, `popupInfo`, `popupSelect`, `mapLayer` and `mapFilter`.
  It has one method per event handler: base-layer change, filter button,
  "Limpar filtro" (clear filter), feature click, popup close, and select
  change. `RecomputeGeoJSON` is the aggregation effect.
  - Every method keeps `Valid()`. In particular, once a handler has run, the
    popup is never open without a selection taken from its own records. The
    popup body relies on this when it reads `popupSelect.value`. Between the
    two setter calls of a click or a close, the weaker `PopupHasSelection()`
    holds: an open popup has a selection.
  - The filter buttons are those of the first layer whose label is the active
    one.
- **`PopupSelector`** (`PopupSelection`). A record's content is rendered
  exactly when its identifier is strictly equal to the selected option. An
  `undefined` option falls back to the default prop `''`.

JavaScript values are modelled by `JsValues.Value`:
- A number is kept as its canonical `ToString` text, so template literals
  produce exactly the key the code builds.
- `===` is structural equality, except that NaN is never equal to anything.
- Objects are compared by identity.
- A record is a `map` from field names to values, and a missing field reads
  as `undefined`.
- `Number(...)` of a non-falsy value is kept as an uninterpreted term,
  `NumberOf(raw)`.

Grouping uses the raw field values, not their numeric conversions. Two
records whose fields are `"1.0"` and `1`, or `"abc"` and `0`, fall into
different features. `Number("abc")` is NaN, not 0.
`AggregationExamples.NonNumericPositionIsItsOwnFeature` shows this.

Both components run the same aggregation and the same handlers. Lines
src/components/MyComponent.js:20-51 repeat src/components/LeafletExtended.js:24-55.
The handler lines map as follows:

| `MyComponent.js` | `LeafletExtended.js` |
|---|---|
| 62-65 | 71-74 |
| 93-95 | 102-104 |
| 133-135 | 142-144 |
| 153-157 | 163-168 |
| 181-184 | 192-195 |
| 193 | 204 |
| 210 | 221 |

Each row below cites one of the two.

## Model

| member | source | states |
|---|---|---|
| Collections.WhereCounts | src/components/LeafletExtended.js:26-32 | `Array.prototype.filter` keeps each element the callback accepts, as often as it occurs, and drops every other |
| Collections.WhereConcat | src/components/LeafletExtended.js:26-32 | filtering keeps the input order: it distributes over concatenation |
| Collections.WhereAll | src/components/LeafletExtended.js:27 | a callback that accepts everything (no active filter) returns the input unchanged |
| Collections.WhereFirst | src/components/MyComponent.js:90 | the first element of a filtered list is the first element the callback accepts |
| Collections.GroupByWellFormed | src/components/LeafletExtended.js:34 | `_.groupBy` yields groups with distinct keys, each non-empty, each holding only elements with its own key |
| Collections.GroupByKeysFirstSeen | src/components/LeafletExtended.js:34-35 | the group keys, in `Object.keys` order, are the distinct keys of the input in order of first occurrence |
| Collections.GroupByMembersInOrder | src/components/LeafletExtended.js:34 | each group holds exactly the input elements with its key, in input order |
| Collections.GroupByIsPartition | src/components/LeafletExtended.js:34 | the groups together are a permutation of the input |
| Collections.GroupByCount | src/components/LeafletExtended.js:34-35 | there are as many groups as distinct keys |
| Collections.DistinctFollowsFirstOccurrence | src/components/LeafletExtended.js:35 | the distinct keys are ordered by the position of their first occurrence |
| Aggregation.FilteredKeepsMatching | src/components/LeafletExtended.js:26-32 | with no filter every record is kept; with `{prop, value}` exactly the records with `m[prop] === value` are kept, each as often as it occurs |
| Aggregation.FilteredKeepsOrder | src/components/MyComponent.js:22-28 | filtering keeps the records' relative order |
| Aggregation.GroupKeyIsNotArrayIndex | src/components/LeafletExtended.js:34-35 | no group key looks like an array index, so `Object.keys` lists groups in creation order |
| Aggregation.PointOf | src/components/LeafletExtended.js:41-44 | a coordinate takes the fallback 0 exactly when the field's value is falsy, and is otherwise `Number` of the raw value (which may itself be 0, as for `"0"`) |
| Aggregation.Aggregate | src/components/LeafletExtended.js:34-47 | every feature holds at least one record and sits at its first record's `[lng, lat]`; all records of a feature share its key; no two features share a key |
| Aggregation.AggregateIsPartition | src/components/LeafletExtended.js:34-47 | the features' `properties`, concatenated, are a permutation of the filtered records |
| Aggregation.AggregateRespectsFilter | src/components/MyComponent.js:22-43 | every record shown passes the filter; without a filter every marker record is shown, as often as it occurs |
| Aggregation.AggregateOrder | src/components/LeafletExtended.js:34-47 | features follow the first occurrence of their key among the filtered records; each feature lists exactly the filtered records with its key, in filtered order |
| Aggregation.AggregateCount | src/components/LeafletExtended.js:34-37 | the feature count equals the number of distinct keys among the filtered records |
| Aggregation.AggregateOfNothing | src/components/LeafletExtended.js:26-52 | marker data that the filter rejects entirely yields a collection with no features |
| AggregationExamples.SharedPositionMakesOneFeature | src/components/MyComponent.js:30-43 | records a and b at (2, 1) and c at (5, 5) give two features, `[a, b]` at (2, 1) and `[c]` at (5, 5) |
| AggregationExamples.NonNumericPositionIsItsOwnFeature | src/components/LeafletExtended.js:34-44 | a record at lat "abc", lng "xyz" is not merged with one at 0 / 0 and is placed at `Number` of its raw text |
| AggregationExamples.FilterRejectingAllGivesNoFeatures | src/components/LeafletExtended.js:26-52 | a filter that no record passes gives an empty feature list |
| PopupSelection.SelectedOrDefault | src/internal/PopupSelector.js:21-23 | an `undefined` selected option becomes `''`; every other value, `null` included, is kept |
| PopupSelection.PopupSelector | src/internal/PopupSelector.js:8 | the content is rendered, with the record itself as `data`, exactly when the identifier equals the selection (or `''` when the selection is undefined) and is not NaN |
| PopupSelection.RenderedExactlyMatching | src/components/LeafletExtended.js:221 | over a feature's records, exactly those whose identifier is strictly equal to the selection render, each as often as it occurs, in `properties` order |
| PopupSelection.ClickedRecordRendersFirst | src/components/LeafletExtended.js:166-167 | right after a click, the clicked feature's first record is the first rendered, when its identifier is neither undefined nor NaN |
| PopupSelection.UndefinedSelectionHidesUnidentified | src/internal/PopupSelector.js:22 | with an undefined selection only records whose identifier is `''` render, so a first record without an identifier is hidden after a click |
| PopupSelection.NaNSelectionRendersNothing | src/internal/PopupSelector.js:8 | a NaN selection renders no record, since NaN is not strictly equal to itself |
| MapComponent.ActiveFiltersOfFirstMatch | src/components/MyComponent.js:90 | the buttons are the `filters` of the first layer whose label is the active layer, and none when no layer has that label |
| MapComponent.ChosenOptionShowsItsRecord | src/components/LeafletExtended.js:201 | choosing any option of the select box (one per record, its identifier as value and label) shows at least the record it was built from, unless that identifier is undefined or NaN |
| MapComponent.MapView.constructor | src/components/MyComponent.js:13-18 | the first layer's label is active, or none when there are no layers; no filter, collection or popup; the state is valid |
| MapComponent.MapView.RecomputeGeoJSON | src/components/LeafletExtended.js:24-55 | empty marker data leaves `geoJSON` as it was, even under a filter; otherwise it becomes the aggregation, and one with no features when the filter rejects every record |
| MapComponent.MapView.ChangeBaseLayer | src/components/LeafletExtended.js:71-74 | the filter is cleared and the chosen layer becomes active; nothing else changes |
| MapComponent.MapView.ChooseFilter | src/components/LeafletExtended.js:102-104 | the button's filter becomes the active filter; nothing else changes |
| MapComponent.MapView.ClearFilter | src/components/LeafletExtended.js:142-144 | the filter is cleared; nothing else changes |
| MapComponent.MapView.ClickFeature | src/components/LeafletExtended.js:163-168 | the popup opens on the clicked feature, with the option `OptionFor` builds from its first record selected; only the popup fields change; the first record renders first when its identifier is neither undefined nor NaN; the state stays valid, and an open popup has a selection between the two setter calls |
| MapComponent.MapView.ClosePopup | src/components/LeafletExtended.js:192-195 | popup and selection are cleared, in the source's order, so an open popup has a selection between the two setter calls too |
| MapComponent.MapView.SelectChange | src/components/LeafletExtended.js:204 | only the selection changes, to one of the `SelectOptions` of the open feature; the popup then shows at least one record unless the chosen identifier is undefined or NaN |
| MapComponent.MapView.PopupContents | src/components/LeafletExtended.js:220-222 | while the popup is open a selection exists, and a record of the open feature is rendered if and only if its identifier is strictly equal to the selection (or `''` when the selection is undefined) |

## Left out

- Rendering: JSX, inline styles, tile layers, `LayersControl`, `MarkerClusterGroup` clustering and the circle markers are left out. They are user interface built on Leaflet, react-leaflet and react-select.
- The `checked` flag of each base layer and the grey highlight of the active filter button are left out. Both are styling only. The highlight compares an `action` field that the filter items do not otherwise use.
- `nanoid()` list keys and the `key={r[multiIdentifier]}` of each selector are left out. They only give React rendering identity.
- Aggregate: the string-to-number conversion inside `Number(...)` is not modelled. It is floating-point parsing, so a non-falsy coordinate stays the uninterpreted term `NumberOf(raw)`; only the `|| 0` default is modelled.
- Numbers are kept as their `ToString` text and not as IEEE doubles. Arithmetic never happens in the core, and `===` is modelled structurally, with NaN unequal to itself.
- Arrays and symbols as field values are left out. So are objects with a custom `toString`. An object's template-literal text is always `[object Object]`.
- React effect scheduling and dependency arrays are left out. `RecomputeGeoJSON` is an explicit call that the environment makes after marker data or the filter changes.
- Props are fixed at construction, except `markerData`, which each recomputation receives. The consequences of changing other props mid-life are not modelled.
- The bounds effect of `LeafletExtended` (src/components/LeafletExtended.js:57-59) and the `bounds` state are left out. They only set the map's viewport.
- dist/MyComponent.js is the compiled form of src/components/MyComponent.js, with the same logic. It is not modelled separately.
- Each handler is modelled as one atomic update, with the invariant `Valid()` checked after it. In the source, a click and a close each call two setters (src/components/LeafletExtended.js:166-167 and 193-194). Inside a Leaflet event callback React need not batch them, so a render can happen in between. After a click, that render sees the new selection with the previous popup, whose options need not include it. After a close, it sees no popup and the old selection. The model proves only `PopupHasSelection()` for those in-between states, not the rest of `Valid()`.
- Events come only from rendered controls, and each handler's `requires` says so:
  - a filter button or "Limpar filtro" only while the active layer's label is truthy, and "Limpar filtro" only while a filter is active;
  - a base-layer change only to one of the layers' labels;
  - a click only on a feature of the current collection;
  - a close or select change only while the popup is open and `enablePopup` holds.
