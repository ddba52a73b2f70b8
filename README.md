# Pricing-POC map page, modelled in Dafny

The map page of Pricing-POC lets a user draw polygons on a Leaflet map,
attach a country and a price to each one, list the annotated shapes in a
side panel, edit them there, highlight them and save the edits back. This
project models that page's in-memory state machine, `MapComponent`
(`app/Map.tsx`), and its metadata editor, `PolygonForm`
(`app/PolygonForm.tsx`). It proves what each handler does to that state.

The component keeps five pieces of state:

- **the shape registry:** `polygons`, a sequence of `PolygonData` records;
- **the vertex-marker tracker:** `markerMap`, the marker list of each polygon, by Leaflet id;
- **the highlight list:** `highlightedIds`;
- **the list panel's pending edits:** `inputValues`;
- **the form and edit-mode flags:** `isFormOpen`, `polygonData`, `polygonLayer` and `isEditMode`.

It also acts on two Leaflet objects: the drawn-items feature group (`layers`)
and the map's markers.

Module layout:

- `Common`: `Option`, and `Text`, a JavaScript `string | undefined` value.
- `Surface`: ids, positions, styles, popups, the layers of the drawn-items
  group, and `LeafletMap`. `LeafletMap` is a class holding every marker
  object made so far, which markers are on the map, and a handle counter.
  Leaflet marker objects are modelled as handles into that store, so
  "the same marker, only moved" can be stated.
- `Markers`: the marker loops. These are creation (`Materialize`), the
  three-phase reconciliation of EDITED (`Grow`, `Reposition`, `Shrink`,
  combined in `Reconcile`) and removal on DELETED (`DetachAll`). Each is an
  imperative method over `LeafletMap`, proved with loop invariants.
- `Registry`: `PolygonData` and the copy-on-write, id-keyed updates of the
  registry (map and filter expressions in the source).
- `Panel`: the edit buffer, the highlight toggle and the restyle it
  causes, and the list panel's filter and rows.
- `Consistency`: the component invariant over values, and one lemma per
  kind of handler showing that the handler keeps it. The invariant says:
  - every polygon layer of the group has exactly one record and one marker
    list;
  - no marker is tracked twice;
  - every tracked marker is on the map;
  - no record is flagged highlighted;
  - every shape's colour follows the highlight list.
- `MapState`: `MapComponent` as a class. Its fields are the component's
  state. Every Leaflet.draw event and UI callback is a method that keeps
  `Valid()` and states what it changes and what it leaves alone. The
  EDITED handler states the batch's marker lists by alignment rather than
  marker by marker (see "Left out"). Next to the class are
  the specification functions the batch handlers are proved against:
  - `EditAreas`, for EDITED;
  - `RemoveIds` and `Detached`, for DELETED;
  - `Committed` and `SaveLayers`, for Save All;
  - `Labelled`, for a form submit.
- `Form`: `PolygonForm` as a class with two input fields. Its methods are
  the resync effect, the two `onChange` setters, submit and cancel. `View`
  is what it renders.

Leaflet ids are stamps that Leaflet never reuses. So CREATED requires an id
not yet in the group, and not in the highlight list either: that list only
ever holds ids of shapes drawn earlier. Leaflet.draw hands each layer of an EDITED or DELETED
event over once, so the ids of a batch are distinct.

## Model

| member | source | states |
|---|---|---|
| Markers.Materialize | app/Map.tsx:96-107 | one new draggable marker per vertex, in vertex order, marker i at vertex i with its popup for vertex i, all added to the map; no existing marker changes |
| Markers.Reconcile | app/Map.tsx:152-185 | afterwards the list has one marker per vertex and marker i sits at vertex i; markers that keep a vertex are the same objects, only moved; growth appends new non-draggable markers; popped markers leave the map but are not moved; markers of other lists are untouched; the shown set grows or shrinks by exactly the appended or popped markers |
| Markers.Grow | app/Map.tsx:154-164 | the push loop appends one fresh non-draggable marker per missing vertex at the tail and keeps the old prefix |
| Markers.Reposition | app/Map.tsx:166-171 | every marker that has a vertex moves to it; markers past the last vertex and markers of other lists keep their state |
| Markers.Shrink | app/Map.tsx:173-183 | the pop loop leaves exactly the first n markers in the list and takes the removed ones off the map, without moving any |
| Markers.DetachAll | app/Map.tsx:208-212 | every marker of the list leaves the map; no marker object changes |
| Surface.LeafletMap.AddMarker | app/Map.tsx:100-105 | a marker object that did not exist before, at the given position with its popup bound there, added to the map |
| Surface.LeafletMap.SetLatLng | app/Map.tsx:166-171 | the marker moves and keeps its popup; nothing else changes |
| Surface.LeafletMap.RemoveLayer | app/Map.tsx:179-180 | the marker leaves the map; the object and its position remain |
| Registry.Find | app/Map.tsx:239-241 | the result is absent exactly when no record has the id, and otherwise is the first record of the registry with that id |
| Registry.UpdateArea | app/Map.tsx:71-77 | same length, ids, order, flags and styles; exactly the records whose id equals the given id take the new area |
| Registry.UpdateAreaNoMatch | app/Map.tsx:71-77 | with no id (the click path) or an id with no record, the registry is unchanged |
| Registry.SetMetadata | app/Map.tsx:261-271 | same length, ids, order, flags and styles; exactly the records with the id take the new country and price |
| Registry.RemoveId | app/Map.tsx:205-207 | a record survives exactly when its id differs from the removed one |
| Registry.RemoveAbsent | app/Map.tsx:205-207 | filtering out an id that has no record gives back the same registry |
| Registry.RemoveIdKeepsUnique | app/Map.tsx:205-207 | filtering keeps record ids unique |
| Registry.AppendFresh | app/Map.tsx:124-133 | appending a record with a new id keeps ids unique and adds exactly that id |
| Panel.SetInput | app/Map.tsx:290-302 | only the named field of the named id's buffer entry changes; other ids are untouched; an id without an entry gets one whose other field is undefined |
| Panel.Without | app/Map.tsx:235-237 | an id is kept exactly when it differs from the removed one; an absent id leaves the list as it is |
| Panel.WithoutAppended | app/Map.tsx:235-247 | filtering an id out undoes appending it |
| Panel.Toggle | app/Map.tsx:232-247 | the id is in the new list exactly when it was not in the old one; membership of every other id is unchanged |
| Panel.ToggleOnOff | app/Map.tsx:232-247 | highlighting and then un-highlighting an id gives back the very same list |
| Panel.Restyle | app/Map.tsx:226-251 | turning on paints the live layer red; turning off restores the record's original colour when both layer and record exist and applies nothing otherwise; only the colour of that layer can change |
| Panel.HighlightRoundTrip | app/Map.tsx:222-252 | two toggles of an unhighlighted shape restore the highlight list and leave its layer in its original colour, every other layer untouched |
| Panel.Listed | app/Map.tsx:351-359 | a record is listed exactly when it is in the registry and neither country nor price is the empty string |
| Panel.ListedAppend | app/Map.tsx:351-359 | the list keeps registry order: an appended record is listed last, and only when annotated |
| Panel.RowOf | app/Map.tsx:360-407 | a row shows the record's area, the buffered country or price when it is truthy and the record's value otherwise, and whether the id is highlighted |
| Panel.Rows | app/Map.tsx:356-410 | one row per listed record, in list order, with its id and area |
| Panel.RowsShowAnnotated | app/Map.tsx:351-410 | the panel has a row for an id exactly when a record with that id has both country and price set |
| Panel.DeletedNotListed | app/Map.tsx:205-207 | once an id's records are filtered out, the panel never shows a row for it |
| Consistency.MetadataKeepsInvariant | app/Map.tsx:255-338 | changing only areas, countries, prices, layer options and popups keeps the component invariant |
| Consistency.CreateKeepsInvariant | app/Map.tsx:88-139 | adding a polygon with a fresh id, an unhighlighted record in its original colour and new markers that are all shown keeps the invariant |
| Consistency.ReplaceKeepsInvariant | app/Map.tsx:152-185 | replacing one list by a list of its own markers and untracked ones, all shown, keeps the invariant |
| Consistency.DeleteKeepsInvariant | app/Map.tsx:200-217 | removing a layer, its records and its marker list, and taking its markers off the map, keeps the invariant |
| Consistency.HighlightKeepsInvariant | app/Map.tsx:222-252 | a highlight toggle with its restyle keeps the invariant, in particular that colours follow the highlight list |
| MapState.EditAreas | app/Map.tsx:147-192 | the registry after an EDITED batch keeps its length, ids, order, flags and styles |
| MapState.LastArea | app/Map.tsx:147-192 | absent exactly when no polygon entry of the batch has the id; otherwise the area of such an entry |
| MapState.EditAreasPointwise | app/Map.tsx:147-192 | after an EDITED batch each record carries the area of the last edit of its polygon and is otherwise unchanged |
| MapState.LastPolygon | app/Map.tsx:148-189 | the shape the form is left bound to after an EDITED batch: absent exactly when the batch holds no polygon, otherwise a polygon of the batch with no polygon after it |
| MapState.KeptStep | app/Map.tsx:148-189 | editing one entry of a batch with distinct ids keeps the lists and markers of every shape the batch has not reached |
| MapState.AlignedStep | app/Map.tsx:148-189 | editing one polygon of a batch touches only its own markers, so the polygons edited before it stay aligned with their rings |
| MapState.Committed | app/Map.tsx:316-334 | a record whose layer is in the group and which has a buffer entry takes the buffered country and price, possibly undefined; any other record is unchanged; id, area, flag and style never change |
| MapState.SavedLayer | app/Map.tsx:321-328 | the layer keeps its kind and colour, takes the buffered values as options, and its popup shows the record's area and those values |
| MapState.SaveLayers | app/Map.tsx:309-337 | Save All changes no layer's kind or colour and no key of the group |
| MapState.SaveLayersAt | app/Map.tsx:309-337 | with unique record ids, each layer ends up saved from its own record and buffer entry; a layer without a record or a buffer entry is unchanged |
| MapState.SaveAll | app/Map.tsx:309-337 | the loop makes each record its committed version and the layers the Save All layers |
| MapState.SavedRowShowsRecord | app/Map.tsx:372-388 | after Save All a row shows the saved record's own country and price |
| MapState.SubmittedRowShows | app/Map.tsx:261-276 | after a form submit with both inputs filled, the shape is listed and its row shows the submitted values |
| MapState.RemoveIds | app/Map.tsx:200-217 | after a DELETED batch a record survives exactly when its id is not in the batch |
| MapState.Detached | app/Map.tsx:208-212 | the markers a DELETED batch removes are exactly those tracked for the ids of the batch |
| MapState.Labelled | app/Map.tsx:256-283 | the submitted layer takes the country and price as options and a popup for the form's area; other layers and every colour and kind are unchanged; a layer no longer in the group is left alone |
| MapState.RowsShowAnnotatedAll | app/Map.tsx:351-410 | for every id, the panel has a row for it exactly when an annotated record with that id exists |
| MapState.MapComponent.constructor | app/Map.tsx:20-39 | on mount nothing is drawn, tracked, highlighted or buffered; the form is closed and bound to empty data; edit mode is off |
| MapState.MapComponent.Created | app/Map.tsx:88-139 | the layer joins the group. A polygon also gets aligned fresh draggable markers, which are exactly the markers added to the map and to the shown set, an appended record (empty country and price, not highlighted, its colour as original style), and the form opened on its area with empty inputs. A non-polygon changes nothing else, markers and shown set included |
| MapState.MapComponent.CreatedPolygon | app/Map.tsx:92-138 | the polygon branch of CREATED, with the same guarantees: the new markers are exactly what is added to the marker store and to the shown set |
| MapState.MapComponent.Track | app/Map.tsx:106-133 | adds one record, layer and marker list under the new id at once, keeping the invariant |
| MapState.MapComponent.EditPolygonProperties | app/Map.tsx:63-85 | the record with the given id takes the area (none when no id); the form is bound to that area and the layer's options, or "" when unset, and opened on that layer |
| MapState.MapComponent.Retrack | app/Map.tsx:150-185 | the polygon's list is reconciled with its new ring and stored back: aligned, surviving markers identical and moved, new ones fresh and non-draggable, popped ones off the map; the shown set gains exactly the new markers or loses exactly the popped ones; every other list and marker unchanged, including whether it is shown |
| MapState.MapComponent.EditLayer | app/Map.tsx:149-188 | a polygon entry is reshaped as in Retrack: survivors are the same markers, only moved (draggable flag and popup kept), grown markers are fresh, non-draggable, with their popup at their vertex, popped ones leave the map, with the exact shown set and marker store; its area is recorded and the form opens on it bound to its area, country and price; lists and markers of other shapes are unchanged; a non-polygon entry changes nothing |
| MapState.MapComponent.Edited | app/Map.tsx:147-192 | every polygon of the batch ends aligned with its ring; lists of ids outside the batch and markers outside their lists are unchanged, shown status included; the registry is the EDITED specification of the batch; the form is bound to the last polygon of the batch, or untouched when there is none; edit mode ends |
| MapState.MapComponent.KeepAligned | app/Map.tsx:148-189 | one batch entry is edited: the entries edited before it stay aligned, lists and markers the batch has not reached stay as the batch found them, the registry takes the entry's area and the form is bound to it when it is a polygon |
| MapState.MapComponent.DeleteNth | app/Map.tsx:201-216 | one more id of the batch is deleted, relative to the state the batch started from |
| MapState.MapComponent.DeleteLayer | app/Map.tsx:202-215 | the layer leaves the group; a polygon's records, marker list and markers go too; the highlight list and the buffer are kept |
| MapState.MapComponent.Deleted | app/Map.tsx:200-217 | the layers, marker lists and records of the batch are gone, exactly the markers tracked for them left the map, and the highlight list, buffer, form and edit mode are unchanged |
| MapState.MapComponent.HandleHighlight | app/Map.tsx:222-252 | the id is toggled in the highlight list and its layer restyled as Restyle states; nothing else changes |
| MapState.MapComponent.HandleFormSubmit | app/Map.tsx:255-287 | with a bound layer, its records, its buffer entry and its layer take the values and the form closes; without one nothing changes |
| MapState.MapComponent.HandleInputChange | app/Map.tsx:290-302 | only the buffer changes, as SetInput states |
| MapState.MapComponent.HandleSaveAllChanges | app/Map.tsx:305-338 | every record becomes its committed version and the layers are saved; tracker, highlight list, buffer and form are unchanged |
| MapState.MapComponent.LayerClicked | app/Map.tsx:112-118 | outside edit mode nothing changes; in edit mode the form opens on the layer but no record is updated |
| MapState.MapComponent.EditStart | app/Map.tsx:142-144 | edit mode turns on; nothing else changes and the invariant is kept |
| MapState.MapComponent.EditStop | app/Map.tsx:195-197 | edit mode turns off; nothing else changes and the invariant is kept |
| MapState.MapComponent.MountForm | app/Map.tsx:423-429 | an open form is rendered bound to the form data, its inputs showing that data's country and price |
| MapState.MapComponent.Deliver | app/Map.tsx:424-428 | a cancel only closes the form; a submit runs the submit handler, which changes nothing when no layer is bound; no event changes nothing |
| MapState.MapComponent.ListRows | app/Map.tsx:351-410 | one row per listed record; a row for an id exactly when an annotated record has it |
| Form.PolygonForm.constructor | app/PolygonForm.tsx:33-41 | the inputs start empty and are then synced from a non-null binding |
| Form.PolygonForm.Resync | app/PolygonForm.tsx:36-41 | a non-null binding resets both inputs to its country and price; a null one leaves them |
| Form.PolygonForm.Rebind | app/PolygonForm.tsx:36-41 | a new binding is stored and synced as Resync states |
| Form.PolygonForm.ChangeCountry | app/PolygonForm.tsx:61-68 | only the country input changes |
| Form.PolygonForm.ChangePrice | app/PolygonForm.tsx:72-79 | only the price input changes |
| Form.PolygonForm.Submit | app/PolygonForm.tsx:43-48 | with both required inputs filled, the inputs are forwarded once exactly when the form is bound; submit never closes |
| Form.PolygonForm.Cancel | app/PolygonForm.tsx:94-99 | cancel asks the parent to close and never submits |
| Form.PolygonForm.View | app/PolygonForm.tsx:50-92 | nothing is rendered without a binding; otherwise the current inputs and the bound, read-only area |

## Left out

- Map setup is not modelled: map creation, the tile layer, the draw control and the event registration (`app/Map.tsx:42-60`). The Leaflet.draw events are method calls on `MapComponent`.
- Turf area and the `toFixed` formatting are not modelled. The formatted area is a string parameter. Vertex positions are opaque values, never computed on.
- Popup HTML is not modelled. A layer's popup is the triple (area, country, price) it was last bound to show. A marker's popup is the position it was bound to.
- The style effects of `setStyle` are modelled only as the layer's colour.
- JSX markup and CSS are not modelled, except the list's filter and the values its rows show. `app/PolygonList.tsx`, `app/page.tsx` and `app/types/leaflet.ts` are not part of this model.
- React scheduling is not modelled. Each handler runs to completion atomically.
  - The queued functional updates of Save All are applied in sequence; with unique ids, their combined effect is the pointwise `Committed`.
  - The form is not re-rendered automatically when `polygonData` changes. `Form.PolygonForm.Rebind` models a new binding, and `MapState.MapComponent.Deliver` carries the form's callbacks to the component.
- The guards against a missing drawn-items group (`app/Map.tsx:224`, `:307`) are not modelled, because the group exists from mount. The `polygonData` test in the submit handler is always true, because the state is an object. Only the bound layer is tested.
- User drags of the draggable vertex markers are not modelled. Markers move only through the handlers. For the same reason, marker alignment with a ring is not part of `Valid()`. It is proved right after creation and after an edit.
- The click outside edit mode opens the layer's popup (`app/Map.tsx:114`). This is rendering, and no state changes.
- `MapState.MapComponent.HandleFormSubmit`: when the bound layer has meanwhile been deleted, the source still writes options and a popup onto the detached layer object. The model leaves the group unchanged, because that object is no longer part of any state the model keeps.
- `MapState.MapComponent.Retrack`: requires a tracked list for the id. The source falls back to an empty list (`app/Map.tsx:152`). The component invariant gives every polygon layer a list, so that fallback is unreachable from the handlers. `Markers.Reconcile` with an empty list covers its behaviour (all markers fresh).
- `MapState.MapComponent.Edited`: states alignment for the batch's own lists, not their marker identities. The per-entry facts (same objects moved, fresh ones appended, popped ones off the map, exact shown set) are stated by `EditLayer` and `Retrack` for one entry and are not composed over the batch.
- `Form.PolygonForm.Submit`: the browser's `required` check is a precondition (both inputs non-empty). The number type of the price input is not modelled; prices are strings.
- Leaflet ids are unbounded integers; no overflow is modelled.
