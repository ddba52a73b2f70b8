/** `MapComponent`: the state the map page keeps in memory and the handlers
    that drive it. Events of the map arrive as method calls, each running to
    completion before the next. */
module MapState {
  import opened Common
  import opened Surface
  import opened Registry
  import opened Panel
  import opened Markers
  import opened Form
  import opened Consistency

  /** One polygon of an EDITED event: its id, its new outer ring and the
      area computed for it (opaque here). */
  datatype EditedLayer = EditedLayer(id: Id, coords: seq<LatLng>, area: string)

  // ---------------------------------------------------------------------
  // What a batch of EDITED or a Save All does to the registry.
  // ---------------------------------------------------------------------

  /** The layer of an edited entry is a polygon of the drawn-items group. */
  predicate EditsPolygon(e: EditedLayer, layers: map<Id, Layer>) {
    e.id in layers && layers[e.id].isPolygon
  }

  /** The registry after an EDITED batch: each polygon's record takes its
      new area, in batch order. */
  function EditAreas(ps: seq<PolygonData>, batch: seq<EditedLayer>, layers: map<Id, Layer>): (r: seq<PolygonData>)
    ensures SameShape(ps, r)
  {
    if batch == [] then ps
    else
      var e := batch[|batch| - 1];
      var prev := EditAreas(ps, batch[..|batch| - 1], layers);
      if EditsPolygon(e, layers) then UpdateArea(prev, Some(e.id), e.area) else prev
  }

  /** The area the last polygon edit for `id` in the batch carries, if any. */
  function LastArea(batch: seq<EditedLayer>, layers: map<Id, Layer>, id: Id): (r: Option<string>)
    ensures r.None? <==> forall i :: 0 <= i < |batch| ==> !(batch[i].id == id && EditsPolygon(batch[i], layers))
    ensures r.Some? ==> exists i :: 0 <= i < |batch| && batch[i].id == id && EditsPolygon(batch[i], layers) && batch[i].area == r.value
  {
    if batch == [] then None
    else
      var e := batch[|batch| - 1];
      if e.id == id && EditsPolygon(e, layers) then Some(e.area)
      else LastArea(batch[..|batch| - 1], layers, id)
  }

  /** After an EDITED batch each record carries the area of the last edit of
      its polygon, and is otherwise unchanged. */
  lemma {:induction false} EditAreasPointwise(ps: seq<PolygonData>, batch: seq<EditedLayer>, layers: map<Id, Layer>)
    ensures |EditAreas(ps, batch, layers)| == |ps|
    ensures forall i :: 0 <= i < |ps| ==>
              EditAreas(ps, batch, layers)[i] ==
                match LastArea(batch, layers, ps[i].id)
                case Some(a) => ps[i].(area := a)
                case None => ps[i]
  {
    if batch != [] {
      EditAreasPointwise(ps, batch[..|batch| - 1], layers);
    }
  }

  /** What Save All makes of one record: when its layer is found and the
      list holds an edit buffer for it, the buffered country and price
      (either may be undefined); otherwise the record as it is. */
  function Committed(p: PolygonData, buf: map<Id, Pending>, layers: map<Id, Layer>): (r: PolygonData)
    ensures SameRecord(p, r) && r.area == p.area
    ensures p.id in layers && p.id in buf ==> r.country == buf[p.id].country && r.price == buf[p.id].price
    ensures !(p.id in layers && p.id in buf) ==> r == p
  {
    if p.id in layers && p.id in buf then p.(country := buf[p.id].country, price := buf[p.id].price) else p
  }

  /** What Save All makes of one layer whose record is `p`: the buffered
      country and price as options, and a popup for the record's area. */
  function SavedLayer(l: Layer, p: PolygonData, v: Pending): (r: Layer)
    ensures r.isPolygon == l.isPolygon && r.color == l.color
    ensures r.country == v.country && r.price == v.price
    ensures r.popup == Info(p.area, v.country, v.price)
  {
    l.(country := v.country, price := v.price, popup := Info(p.area, v.country, v.price))
  }

  /** The layers after Save All has visited the records `ps` in order. */
  function SaveLayers(ls: map<Id, Layer>, ps: seq<PolygonData>, buf: map<Id, Pending>): (r: map<Id, Layer>)
    ensures SameLook(ls, r)
  {
    if ps == [] then ls
    else
      var p := ps[0];
      var next := if p.id in ls && p.id in buf then ls[p.id := SavedLayer(ls[p.id], p, buf[p.id])] else ls;
      SaveLayers(next, ps[1..], buf)
  }

  /** With unique record ids, Save All gives each layer the buffered values
      of its own record, and leaves a layer without a record or without a
      buffer as it was. */
  lemma {:induction false} SaveLayersAt(ls: map<Id, Layer>, ps: seq<PolygonData>, buf: map<Id, Pending>, id: Id)
    requires UniqueIds(ps) && id in ls
    ensures SaveLayers(ls, ps, buf)[id] ==
              match Find(ps, id)
              case Some(p) => if id in buf then SavedLayer(ls[id], p, buf[id]) else ls[id]
              case None => ls[id]
  {
    if ps != [] {
      var p := ps[0];
      var next := if p.id in ls && p.id in buf then ls[p.id := SavedLayer(ls[p.id], p, buf[p.id])] else ls;
      assert UniqueIds(ps[1..]);
      SaveLayersAt(next, ps[1..], buf, id);
      if p.id == id {
        assert !HasRecord(ps[1..], id) by {
          forall q | q in ps[1..] ensures q.id != id {
            var j :| 0 <= j < |ps[1..]| && ps[1..][j] == q;
            assert ps[j + 1] == q;
          }
        }
      }
    }
  }

  /** The `polygons.forEach` loop of Save All, over the registry as it was
      when the button was pressed: each record whose layer is in the group
      and which has an edit buffer takes the buffered values, and so does
      its layer. */
  method SaveAll(ps: seq<PolygonData>, layers: map<Id, Layer>, buf: map<Id, Pending>)
    returns (qs: seq<PolygonData>, ls: map<Id, Layer>)
    requires UniqueIds(ps)
    ensures SameShape(ps, qs)
    ensures forall i :: 0 <= i < |ps| ==> qs[i] == Committed(ps[i], buf, layers)
    ensures ls == SaveLayers(layers, ps, buf)
  {
    ls, qs := layers, ps;
    for i := 0 to |ps|
      invariant |qs| == |ps|
      invariant forall k :: 0 <= k < |ps| ==> qs[k] == if k < i then Committed(ps[k], buf, layers) else ps[k]
      invariant ls.Keys == layers.Keys
      invariant SaveLayers(ls, ps[i..], buf) == SaveLayers(layers, ps, buf)
    {
      var p := ps[i];
      assert ps[i..][1..] == ps[i + 1..];
      if p.id in ls && p.id in buf {
        var v := buf[p.id];
        ls := ls[p.id := SavedLayer(ls[p.id], p, v)];
        qs := SetMetadata(qs, p.id, v.country, v.price);
      }
    }
  }

  /** After Save All a saved record and its list row agree wherever the
      buffer has a non-empty value; where it does not, the row falls back
      to the record, which then holds that same empty or undefined value. */
  lemma SavedRowShowsRecord(p: PolygonData, buf: map<Id, Pending>, layers: map<Id, Layer>, hl: seq<Id>)
    requires p.id in layers && p.id in buf
    ensures RowOf(Committed(p, buf, layers), buf, hl).country == Committed(p, buf, layers).country
    ensures RowOf(Committed(p, buf, layers), buf, hl).price == Committed(p, buf, layers).price
  {
  }

  /** After a form submit with both inputs filled (the form requires it),
      the shape's record carries them, so it is listed, and its row shows
      them. */
  lemma SubmittedRowShows(ps: seq<PolygonData>, buf: map<Id, Pending>, hl: seq<Id>, id: Id,
                          country: string, price: string, i: int)
    requires country != "" && price != ""
    requires 0 <= i < |ps| && ps[i].id == id
    ensures var p := SetMetadata(ps, id, Str(country), Str(price))[i];
            && Annotated(p) && p in Listed(SetMetadata(ps, id, Str(country), Str(price)))
            && RowOf(p, buf[id := Pending(Str(country), Str(price))], hl) == Row(id, ps[i].area, Str(country), Str(price), id in hl)
  {
  }

  /** The registry after a DELETED batch: the records of the deleted
      layers are filtered out one layer at a time. */
  function RemoveIds(ps: seq<PolygonData>, ids: seq<Id>): (r: seq<PolygonData>)
    ensures forall p :: p in r <==> p in ps && p.id !in ids
  {
    if ids == [] then ps
    else RemoveId(RemoveIds(ps, ids[..|ids| - 1]), ids[|ids| - 1])
  }

  /** The vertex markers a DELETED batch takes off the map: those the
      tracker held for the deleted layers. */
  ghost function Detached(mm: map<Id, seq<MarkerRef>>, ids: seq<Id>): (r: set<MarkerRef>)
    ensures forall h :: h in r <==> exists i :: 0 <= i < |ids| && ids[i] in mm && h in mm[ids[i]]
  {
    if ids == [] then {}
    else
      var id := ids[|ids| - 1];
      Detached(mm, ids[..|ids| - 1]) + (if id in mm then Elems(mm[id]) else {})
  }

  /** Every polygon among the first n layers of an EDITED batch has its
      marker list aligned with its new ring. */
  ghost predicate AlignedUpTo(batch: seq<EditedLayer>, n: nat, markers: map<MarkerRef, MarkerState>,
                              mm: map<Id, seq<MarkerRef>>, layers: map<Id, Layer>)
    requires n <= |batch|
  {
    forall k :: 0 <= k < n && EditsPolygon(batch[k], layers) ==>
      batch[k].id in mm && AlignedWith(markers, mm[batch[k].id], batch[k].coords)
  }

  /** The ids of an EDITED batch, in batch order. */
  function EditedIds(batch: seq<EditedLayer>): (r: seq<Id>)
    ensures |r| == |batch| && forall i :: 0 <= i < |batch| ==> r[i] == batch[i].id
  {
    seq(|batch|, i requires 0 <= i < |batch| => batch[i].id)
  }

  /** The last polygon among the first n entries of an EDITED batch: the
      shape the form is left bound to. */
  function LastPolygon(batch: seq<EditedLayer>, n: nat, layers: map<Id, Layer>): (r: Option<EditedLayer>)
    requires n <= |batch|
    ensures r.None? <==> forall k :: 0 <= k < n ==> !EditsPolygon(batch[k], layers)
    ensures r.Some? ==> EditsPolygon(r.value, layers)
    ensures r.Some? ==> exists k :: 0 <= k < n && batch[k] == r.value &&
                                    forall j :: k < j < n ==> !EditsPolygon(batch[j], layers)
  {
    if n == 0 then None
    else if EditsPolygon(batch[n - 1], layers) then Some(batch[n - 1])
    else LastPolygon(batch, n - 1, layers)
  }

  /** After the first n entries of an EDITED batch the form is bound to the
      last polygon among them, or is as it was (`before`) when there is none. */
  ghost predicate FormBound(batch: seq<EditedLayer>, n: nat, layers: map<Id, Layer>,
                            data: FormData, layer: Option<Id>, open: bool, before: (FormData, Option<Id>, bool))
    requires n <= |batch|
  {
    match LastPolygon(batch, n, layers)
    case None => data == before.0 && layer == before.1 && open == before.2
    case Some(e) =>
      && layer == Some(e.id) && open && e.id in layers
      && data == FormData(e.area, layers[e.id].country.OrEmpty(), layers[e.id].price.OrEmpty())
  }

  /** Every id outside `ids` keeps the marker list it had in `before`. */
  ghost predicate ListsKept(before: map<Id, seq<MarkerRef>>, after: map<Id, seq<MarkerRef>>, ids: seq<Id>) {
    forall id :: id in before && id !in ids ==> id in after && after[id] == before[id]
  }

  /** Every marker outside `touched` keeps its state and whether it is
      on the map. */
  ghost predicate MarkersKept(before: map<MarkerRef, MarkerState>, shownBefore: set<MarkerRef>,
                              after: map<MarkerRef, MarkerState>, shownAfter: set<MarkerRef>, touched: set<MarkerRef>) {
    forall h :: h in before && h !in touched ==>
      h in after && after[h] == before[h] && (h in shownAfter <==> h in shownBefore)
  }

  /** One more entry of an EDITED batch: an edit that changes only its own
      list and markers keeps every list and marker the batch has not yet
      reached as the batch found it. */
  lemma KeptStep(mm: map<Id, seq<MarkerRef>>, mmBefore: map<Id, seq<MarkerRef>>, mmAfter: map<Id, seq<MarkerRef>>,
                 markers: map<MarkerRef, MarkerState>, shown: set<MarkerRef>,
                 before: map<MarkerRef, MarkerState>, shownBefore: set<MarkerRef>,
                 after: map<MarkerRef, MarkerState>, shownAfter: set<MarkerRef>, ids: seq<Id>, n: nat)
    requires n < |ids| && ids[n] !in ids[..n]
    requires mmBefore.Keys == mm.Keys && ListsKept(mm, mmBefore, ids[..n])
    requires MarkersKept(markers, shown, before, shownBefore, Detached(mm, ids[..n]))
    requires mmAfter.Keys == mmBefore.Keys && forall id :: id in mmBefore && id != ids[n] ==> mmAfter[id] == mmBefore[id]
    requires forall h :: h in before && !(ids[n] in mmBefore && h in mmBefore[ids[n]]) ==>
               h in after && after[h] == before[h] && (h in shownAfter <==> h in shownBefore)
    ensures ListsKept(mm, mmAfter, ids[..n + 1])
    ensures MarkersKept(markers, shown, after, shownAfter, Detached(mm, ids[..n + 1]))
  {
  }

  /** One more entry of an EDITED batch: editing its layer touches only the
      markers tracked for it, so the polygons edited before it stay aligned,
      and a polygon's own list is aligned by the edit. */
  lemma AlignedStep(batch: seq<EditedLayer>, n: nat, layers: map<Id, Layer>,
                    before: map<MarkerRef, MarkerState>, after: map<MarkerRef, MarkerState>,
                    mm: map<Id, seq<MarkerRef>>, mm': map<Id, seq<MarkerRef>>)
    requires n < |batch|
    requires forall i, j :: 0 <= i < j < |batch| ==> batch[i].id != batch[j].id
    requires Disjoint(mm) && AlignedUpTo(batch, n, before, mm, layers)
    requires mm'.Keys == mm.Keys && forall id :: id in mm && id != batch[n].id ==> mm'[id] == mm[id]
    requires forall h :: h in before && !(batch[n].id in mm && h in mm[batch[n].id]) ==>
               h in after && after[h] == before[h]
    requires EditsPolygon(batch[n], layers) ==>
               batch[n].id in mm' && AlignedWith(after, mm'[batch[n].id], batch[n].coords)
    ensures AlignedUpTo(batch, n + 1, after, mm', layers)
  {
  }

  /** One more entry of an EDITED batch: the registry takes its area when
      it is a polygon. */
  lemma EditAreasStep(ps: seq<PolygonData>, batch: seq<EditedLayer>, n: nat, layers: map<Id, Layer>)
    requires n < |batch|
    ensures EditAreas(ps, batch[..n + 1], layers) ==
              if EditsPolygon(batch[n], layers) then UpdateArea(EditAreas(ps, batch[..n], layers), Some(batch[n].id), batch[n].area)
              else EditAreas(ps, batch[..n], layers)
  {
    assert batch[..n + 1][..n] == batch[..n];
  }

  /** One more id of a DELETED batch: removing it from what is left of the
      registry, the group, the tracker and the shown markers leaves what
      the batch so far, extended by it, leaves of the starting values. */
  lemma DeletedStep(ps: seq<PolygonData>, mm: map<Id, seq<MarkerRef>>, ls: map<Id, Layer>, shown: set<MarkerRef>,
                    batch: seq<Id>, n: nat, mmNow: map<Id, seq<MarkerRef>>, shownNow: set<MarkerRef>)
    requires n < |batch|
    requires forall i, j :: 0 <= i < j < |batch| ==> batch[i] != batch[j]
    requires mmNow == mm - Elems(batch[..n]) && shownNow == shown - Detached(mm, batch[..n])
    ensures ls - Elems(batch[..n]) - {batch[n]} == ls - Elems(batch[..n + 1])
    ensures mmNow - {batch[n]} == mm - Elems(batch[..n + 1])
    ensures RemoveIds(ps, batch[..n + 1]) == RemoveId(RemoveIds(ps, batch[..n]), batch[n])
    ensures shownNow - Elems(if batch[n] in mmNow then mmNow[batch[n]] else []) == shown - Detached(mm, batch[..n + 1])
  {
    assert batch[..n + 1][..n] == batch[..n];
    assert batch[n] !in Elems(batch[..n]);
    assert Elems(batch[..n + 1]) == Elems(batch[..n]) + {batch[n]};
  }

  /** The form-submit write to a shape's layer: its options take the new
      country and price and its popup shows them with the given area. A
      layer no longer in the group is left alone. */
  function Labelled(layers: map<Id, Layer>, id: Id, area: string, country: Text, price: Text): (r: map<Id, Layer>)
    ensures SameLook(layers, r)
    ensures forall k :: k in layers && k != id ==> r[k] == layers[k]
    ensures id in layers ==>
              && r[id].country == country && r[id].price == price
              && r[id].popup == Info(area, country, price)
  {
    if id in layers then
      layers[id := layers[id].(country := country, price := price, popup := Info(area, country, price))]
    else layers
  }

  // ---------------------------------------------------------------------
  // The component.
  // ---------------------------------------------------------------------

  class MapComponent {
    /** `mapRef.current`: the Leaflet map, made once on mount. */
    const leafletMap: LeafletMap
    var polygons: seq<PolygonData>
    /** `polygonMarkerMap.current`: each polygon's vertex markers, by id. */
    var markerMap: map<Id, seq<MarkerRef>>
    var highlightedIds: seq<Id>
    var inputValues: map<Id, Pending>
    var isFormOpen: bool
    var polygonData: FormData
    var polygonLayer: Option<Id>
    var isEditMode: bool
    /** The drawn-items group, by layer id. */
    var layers: map<Id, Layer>

    /** The marker list tracked for the id, or the empty list. */
    function MarkersOf(id: Id): (r: seq<MarkerRef>)
      reads this
      ensures id in markerMap ==> r == markerMap[id]
      ensures id !in markerMap ==> r == []
    {
      if id in markerMap then markerMap[id] else []
    }

    /** The three views stay in step: each polygon layer has exactly one
        record and one marker list, the lists share no marker, every tracked
        marker is on the map, and each shape's colour follows the highlight
        list. */
    ghost predicate Valid()
      reads this, leafletMap
    {
      && leafletMap.Valid()
      && Inv(polygons, markerMap, layers, highlightedIds, leafletMap.shown)
    }

    /** Mounting: the map is made, nothing is drawn, the form is closed. */
    constructor ()
      ensures Valid() && fresh(leafletMap)
      ensures leafletMap.markers == map[] && leafletMap.shown == {}
      ensures polygons == [] && markerMap == map[] && layers == map[]
      ensures highlightedIds == [] && inputValues == map[]
      ensures !isFormOpen && polygonData == FormData("", "", "") && polygonLayer.None? && !isEditMode
    {
      leafletMap := new LeafletMap();
      polygons, markerMap, layers := [], map[], map[];
      highlightedIds, inputValues := [], map[];
      isFormOpen, polygonData, polygonLayer, isEditMode := false, FormData("", "", ""), None, false;
    }

    /** CREATED: the layer joins the drawn-items group; a polygon also gets
        one new draggable marker per vertex, a fresh record (empty country
        and price, not highlighted, its current colour as original style)
        appended to the registry, and the form opened on its area. */
    method Created(id: Id, isPolygon: bool, coords: seq<LatLng>, color: Option<Colour>, area: string)
      requires Valid()
      requires id !in layers && id !in highlightedIds  // Leaflet never reuses an id
      modifies this, leafletMap
      ensures layers == old(layers)[id := Layer(isPolygon, color, Undefined, Undefined, NoPopup)]
      ensures isPolygon ==>
                && id in markerMap && markerMap == old(markerMap)[id := markerMap[id]]
                && AlignedWith(leafletMap.markers, markerMap[id], coords)
                && (forall i :: 0 <= i < |markerMap[id]| ==>
                      markerMap[id][i] !in old(leafletMap.markers) &&
                      leafletMap.markers[markerMap[id][i]] == MarkerState(coords[i], true, coords[i]))
                && polygons == old(polygons) + [PolygonData(id, area, Str(""), Str(""), false, Style(color))]
                && polygonData == FormData(area, "", "") && polygonLayer == Some(id) && isFormOpen
      ensures !isPolygon ==>
                && markerMap == old(markerMap) && polygons == old(polygons)
                && polygonData == old(polygonData) && polygonLayer == old(polygonLayer)
                && isFormOpen == old(isFormOpen) && leafletMap.shown == old(leafletMap.shown)
                && leafletMap.markers == old(leafletMap.markers)
      ensures isPolygon ==> id in markerMap && leafletMap.shown == old(leafletMap.shown) + Elems(markerMap[id])
      ensures isPolygon ==> id in markerMap && leafletMap.markers.Keys == old(leafletMap.markers).Keys + Elems(markerMap[id])
      ensures Extends(old(leafletMap.markers), leafletMap.markers)
      ensures highlightedIds == old(highlightedIds) && inputValues == old(inputValues)
      ensures isEditMode == old(isEditMode)
      ensures Valid()
    {
      if isPolygon {
        CreatedPolygon(id, coords, color, area);
      } else {
        layers := layers[id := Layer(false, color, Undefined, Undefined, NoPopup)];
      }
    }

    /** The polygon branch of CREATED. */
    method CreatedPolygon(id: Id, coords: seq<LatLng>, color: Option<Colour>, area: string)
      requires Valid()
      requires id !in layers && id !in highlightedIds
      modifies this, leafletMap
      ensures layers == old(layers)[id := Layer(true, color, Undefined, Undefined, NoPopup)]
      ensures id in markerMap && markerMap == old(markerMap)[id := markerMap[id]]
      ensures AlignedWith(leafletMap.markers, markerMap[id], coords)
      ensures forall i :: 0 <= i < |markerMap[id]| ==>
                markerMap[id][i] !in old(leafletMap.markers) &&
                leafletMap.markers[markerMap[id][i]] == MarkerState(coords[i], true, coords[i])
      ensures Extends(old(leafletMap.markers), leafletMap.markers)
      ensures leafletMap.markers.Keys == old(leafletMap.markers).Keys + Elems(markerMap[id])
      ensures leafletMap.shown == old(leafletMap.shown) + Elems(markerMap[id])
      ensures polygons == old(polygons) + [PolygonData(id, area, Str(""), Str(""), false, Style(color))]
      ensures polygonData == FormData(area, "", "") && polygonLayer == Some(id) && isFormOpen
      ensures highlightedIds == old(highlightedIds) && inputValues == old(inputValues)
      ensures isEditMode == old(isEditMode)
      ensures Valid()
    {
      polygonData, polygonLayer, isFormOpen := FormData(area, "", ""), Some(id), true;
      var vertexMarkers := Materialize(leafletMap, coords);
      Track(PolygonData(id, area, Str(""), Str(""), false, Style(color)),
            Layer(true, color, Undefined, Undefined, NoPopup), vertexMarkers, old(leafletMap.markers));
    }

    /** Adds a new polygon, whose markers were all just made, to all three
        views at once. */
    method Track(rec: PolygonData, layer: Layer, ms: seq<MarkerRef>, ghost before: map<MarkerRef, MarkerState>)
      requires Valid()
      requires rec.id !in layers && rec.id !in highlightedIds && !rec.highlighted
      requires layer.isPolygon && layer.color == rec.originalStyle.color
      requires Distinct(ms) && Elems(ms) <= leafletMap.shown
      requires AllMarkers(markerMap) <= before.Keys && forall i :: 0 <= i < |ms| ==> ms[i] !in before
      modifies this
      ensures layers == old(layers)[rec.id := layer] && markerMap == old(markerMap)[rec.id := ms]
      ensures polygons == old(polygons) + [rec]
      ensures highlightedIds == old(highlightedIds) && inputValues == old(inputValues)
      ensures isEditMode == old(isEditMode) && isFormOpen == old(isFormOpen)
      ensures polygonData == old(polygonData) && polygonLayer == old(polygonLayer)
      ensures Valid()
    {
      CreateKeepsInvariant(polygons, markerMap, layers, highlightedIds, leafletMap.shown, leafletMap.shown, rec, layer, ms);
      layers, markerMap, polygons := layers[rec.id := layer], markerMap[rec.id := ms], polygons + [rec];
    }

    /** `editPolygonProperties(layer, leafletId)`: the record whose id is
        `leafletId` takes the freshly computed area (none does when the id is
        absent); the form is bound to that area and the layer's own country
        and price (empty when unset) and opened on this layer. */
    method EditPolygonProperties(layerId: Id, leafletId: Option<Id>, area: string)
      requires Valid() && layerId in layers
      modifies this
      ensures layers == old(layers) && markerMap == old(markerMap)
      ensures polygons == UpdateArea(old(polygons), leafletId, area)
      ensures polygonData == FormData(area, layers[layerId].country.OrEmpty(), layers[layerId].price.OrEmpty())
      ensures polygonLayer == Some(layerId) && isFormOpen
      ensures highlightedIds == old(highlightedIds) && inputValues == old(inputValues)
      ensures isEditMode == old(isEditMode)
      ensures Valid()
    {
      var updated := UpdateArea(polygons, leafletId, area);
      MetadataKeepsInvariant(polygons, updated, markerMap, layers, layers, highlightedIds, leafletMap.shown);
      polygons, polygonData, polygonLayer, isFormOpen :=
        updated, FormData(area, layers[layerId].country.OrEmpty(), layers[layerId].price.OrEmpty()), Some(layerId), true;
    }

    /** The marker half of EDITED for one polygon: its list is reconciled
        with the new ring and stored back under its id. */
    method Retrack(id: Id, coords: seq<LatLng>)
      requires Valid() && id in markerMap
      modifies this, leafletMap
      ensures id in markerMap && markerMap == old(markerMap)[id := markerMap[id]]
      ensures AlignedWith(leafletMap.markers, markerMap[id], coords)
      ensures forall h :: h in old(markerMap[id]) ==> h in old(leafletMap.markers)
      ensures forall i :: 0 <= i < |markerMap[id]| && i < |old(markerMap[id])| ==>
                markerMap[id][i] == old(markerMap[id])[i] &&
                leafletMap.markers[markerMap[id][i]] == old(leafletMap.markers)[old(markerMap[id])[i]].(pos := coords[i])
      ensures forall i :: |old(markerMap[id])| <= i < |markerMap[id]| ==>
                markerMap[id][i] !in old(leafletMap.markers) &&
                leafletMap.markers[markerMap[id][i]] == MarkerState(coords[i], false, coords[i])
      ensures forall i :: |coords| <= i < |old(markerMap[id])| ==> old(markerMap[id])[i] !in leafletMap.shown
      ensures leafletMap.markers.Keys == old(leafletMap.markers).Keys + Elems(markerMap[id])
      ensures |old(markerMap[id])| <= |coords| ==>
                leafletMap.shown == old(leafletMap.shown) + Elems(markerMap[id][|old(markerMap[id])|..])
      ensures |coords| <= |old(markerMap[id])| ==>
                leafletMap.shown == old(leafletMap.shown) - Elems(old(markerMap[id])[|coords|..])
      ensures forall h :: h in old(leafletMap.markers) && h !in old(markerMap[id]) ==>
                && h in leafletMap.markers && leafletMap.markers[h] == old(leafletMap.markers)[h]
                && (h in leafletMap.shown <==> h in old(leafletMap.shown))
      ensures polygons == old(polygons) && layers == old(layers)
      ensures highlightedIds == old(highlightedIds) && inputValues == old(inputValues)
      ensures polygonData == old(polygonData) && polygonLayer == old(polygonLayer)
      ensures isFormOpen == old(isFormOpen) && isEditMode == old(isEditMode)
      ensures Valid()
    {
      var vertexMarkers := markerMap[id];
      ListTracked(markerMap, id);
      var r := Reconcile(leafletMap, vertexMarkers, coords);
      forall h | h in r ensures h in vertexMarkers || h !in AllMarkers(markerMap) {
        var i :| 0 <= i < |r| && r[i] == h;
        if i < |vertexMarkers| {
          assert h == vertexMarkers[i];
        }
      }
      forall h | h in Elems(r) ensures h in leafletMap.shown {
        var i :| 0 <= i < |r| && r[i] == h;
        if i < |vertexMarkers| {
          assert h == vertexMarkers[i] && h in Elems(vertexMarkers);
          if |coords| <= |vertexMarkers| {
            assert h !in Elems(vertexMarkers[|coords|..]);
          }
        } else {
          assert h == r[|vertexMarkers|..][i - |vertexMarkers|];
        }
      }
      forall h | h in old(leafletMap.shown) && h !in vertexMarkers ensures h in leafletMap.shown {
        if |coords| <= |vertexMarkers| {
          assert h !in Elems(vertexMarkers[|coords|..]);
        }
      }
      forall i | |coords| <= i < |vertexMarkers| ensures vertexMarkers[i] !in leafletMap.shown {
        assert vertexMarkers[i] == vertexMarkers[|coords|..][i - |coords|];
      }
      ReplaceKeepsInvariant(polygons, markerMap, layers, highlightedIds, old(leafletMap.shown), leafletMap.shown, id, r);
      markerMap := markerMap[id := r];
    }

    /** One polygon of an EDITED event: its marker list is brought in line
        with the new ring (the same markers for the surviving vertices, new
        non-draggable ones for added vertices, removed ones taken off the
        map), and its record and the form take the new area. Layers that are
        not polygons are skipped. Every other marker stays as it was. */
    method EditLayer(e: EditedLayer)
      requires Valid() && e.id in layers
      modifies this, leafletMap
      ensures layers == old(layers) && highlightedIds == old(highlightedIds)
      ensures inputValues == old(inputValues) && isEditMode == old(isEditMode)
      ensures markerMap.Keys == old(markerMap).Keys
      ensures forall id :: id in old(markerMap) && id != e.id ==> markerMap[id] == old(markerMap)[id]
      ensures forall h :: h in old(leafletMap.markers) && h !in old(MarkersOf(e.id)) ==>
                && h in leafletMap.markers && leafletMap.markers[h] == old(leafletMap.markers)[h]
                && (h in leafletMap.shown <==> h in old(leafletMap.shown))
      ensures !EditsPolygon(e, layers) ==>
                && markerMap == old(markerMap) && polygons == old(polygons)
                && polygonData == old(polygonData) && polygonLayer == old(polygonLayer)
                && isFormOpen == old(isFormOpen)
                && leafletMap.markers == old(leafletMap.markers) && leafletMap.shown == old(leafletMap.shown)
      ensures EditsPolygon(e, layers) ==> AlignedWith(leafletMap.markers, markerMap[e.id], e.coords)
      ensures EditsPolygon(e, layers) ==>
                forall i :: 0 <= i < |markerMap[e.id]| && i < |old(MarkersOf(e.id))| ==>
                  markerMap[e.id][i] == old(MarkersOf(e.id))[i]
      ensures EditsPolygon(e, layers) ==>
                forall i :: |old(MarkersOf(e.id))| <= i < |markerMap[e.id]| ==>
                  markerMap[e.id][i] !in old(leafletMap.markers) && !leafletMap.markers[markerMap[e.id][i]].draggable
      ensures forall h :: h in old(MarkersOf(e.id)) ==> h in old(leafletMap.markers)
      ensures EditsPolygon(e, layers) ==>
                forall i :: 0 <= i < |markerMap[e.id]| && i < |old(MarkersOf(e.id))| ==>
                  leafletMap.markers[markerMap[e.id][i]] == old(leafletMap.markers)[old(MarkersOf(e.id))[i]].(pos := e.coords[i])
      ensures EditsPolygon(e, layers) ==>
                forall i :: |old(MarkersOf(e.id))| <= i < |markerMap[e.id]| ==>
                  leafletMap.markers[markerMap[e.id][i]] == MarkerState(e.coords[i], false, e.coords[i])
      ensures EditsPolygon(e, layers) ==>
                forall i :: |e.coords| <= i < |old(MarkersOf(e.id))| ==> old(MarkersOf(e.id))[i] !in leafletMap.shown
      ensures EditsPolygon(e, layers) ==>
                leafletMap.markers.Keys == old(leafletMap.markers).Keys + Elems(markerMap[e.id])
      ensures EditsPolygon(e, layers) && |old(MarkersOf(e.id))| <= |e.coords| ==>
                leafletMap.shown == old(leafletMap.shown) + Elems(markerMap[e.id][|old(MarkersOf(e.id))|..])
      ensures EditsPolygon(e, layers) && |e.coords| <= |old(MarkersOf(e.id))| ==>
                leafletMap.shown == old(leafletMap.shown) - Elems(old(MarkersOf(e.id))[|e.coords|..])
      ensures EditsPolygon(e, layers) ==> polygons == UpdateArea(old(polygons), Some(e.id), e.area)
      ensures EditsPolygon(e, layers) ==>
                polygonData == FormData(e.area, layers[e.id].country.OrEmpty(), layers[e.id].price.OrEmpty())
      ensures EditsPolygon(e, layers) ==> polygonLayer == Some(e.id) && isFormOpen
      ensures Valid()
    {
      if layers[e.id].isPolygon {
        Retrack(e.id, e.coords);
        EditPolygonProperties(e.id, Some(e.id), e.area);
      }
    }

    /** EDITED: every polygon in the batch is reshaped in turn (markers
        reconciled, area recorded, form opened on it), then edit mode ends.
        The form is left bound to the last polygon of the batch. Marker
        lists and markers of shapes outside the batch do not change.
        Leaflet hands each edited layer over once, so the ids are distinct. */
    method Edited(batch: seq<EditedLayer>)
      requires Valid()
      requires forall i :: 0 <= i < |batch| ==> batch[i].id in layers
      requires forall i, j :: 0 <= i < j < |batch| ==> batch[i].id != batch[j].id
      modifies this, leafletMap
      ensures layers == old(layers) && markerMap.Keys == old(markerMap).Keys
      ensures highlightedIds == old(highlightedIds) && inputValues == old(inputValues)
      ensures forall i :: 0 <= i < |batch| && EditsPolygon(batch[i], layers) ==>
                batch[i].id in markerMap && AlignedWith(leafletMap.markers, markerMap[batch[i].id], batch[i].coords)
      ensures ListsKept(old(markerMap), markerMap, EditedIds(batch))
      ensures MarkersKept(old(leafletMap.markers), old(leafletMap.shown), leafletMap.markers, leafletMap.shown,
                          Detached(old(markerMap), EditedIds(batch)))
      ensures polygons == EditAreas(old(polygons), batch, layers)
      ensures LastPolygon(batch, |batch|, layers).None? ==>
                polygonData == old(polygonData) && polygonLayer == old(polygonLayer) && isFormOpen == old(isFormOpen)
      ensures LastPolygon(batch, |batch|, layers).Some? ==>
                var e := LastPolygon(batch, |batch|, layers).value;
                && polygonLayer == Some(e.id) && isFormOpen
                && polygonData == FormData(e.area, layers[e.id].country.OrEmpty(), layers[e.id].price.OrEmpty())
      ensures !isEditMode
      ensures Valid()
    {
      for n := 0 to |batch|
        invariant layers == old(layers) && markerMap.Keys == old(markerMap).Keys
        invariant highlightedIds == old(highlightedIds) && inputValues == old(inputValues)
        invariant AlignedUpTo(batch, n, leafletMap.markers, markerMap, layers)
        invariant ListsKept(old(markerMap), markerMap, EditedIds(batch)[..n])
        invariant MarkersKept(old(leafletMap.markers), old(leafletMap.shown), leafletMap.markers, leafletMap.shown,
                              Detached(old(markerMap), EditedIds(batch)[..n]))
        invariant polygons == EditAreas(old(polygons), batch[..n], layers)
        invariant FormBound(batch, n, layers, polygonData, polygonLayer, isFormOpen,
                            (old(polygonData), old(polygonLayer), old(isFormOpen)))
        invariant Valid()
      {
        EditAreasStep(old(polygons), batch, n, layers);
        KeepAligned(batch, n, old(markerMap), old(leafletMap.markers), old(leafletMap.shown),
                    (old(polygonData), old(polygonLayer), old(isFormOpen)));
      }
      assert batch[..|batch|] == batch;
      assert EditedIds(batch)[..|batch|] == EditedIds(batch);
      isEditMode := false;
    }

    /** One step of EDITED: the n-th layer is edited; the layers edited
        before it stay aligned with their rings, and the lists and markers
        of the layers not yet edited stay as the batch found them. */
    method KeepAligned(batch: seq<EditedLayer>, n: nat, ghost mm: map<Id, seq<MarkerRef>>,
                       ghost markers: map<MarkerRef, MarkerState>, ghost shown: set<MarkerRef>,
                       ghost formBefore: (FormData, Option<Id>, bool))
      requires Valid() && n < |batch|
      requires forall i :: 0 <= i < |batch| ==> batch[i].id in layers
      requires forall i, j :: 0 <= i < j < |batch| ==> batch[i].id != batch[j].id
      requires AlignedUpTo(batch, n, leafletMap.markers, markerMap, layers)
      requires markerMap.Keys == mm.Keys && ListsKept(mm, markerMap, EditedIds(batch)[..n])
      requires MarkersKept(markers, shown, leafletMap.markers, leafletMap.shown, Detached(mm, EditedIds(batch)[..n]))
      requires FormBound(batch, n, layers, polygonData, polygonLayer, isFormOpen, formBefore)
      modifies this, leafletMap
      ensures layers == old(layers) && markerMap.Keys == old(markerMap).Keys
      ensures highlightedIds == old(highlightedIds) && inputValues == old(inputValues)
      ensures isEditMode == old(isEditMode)
      ensures AlignedUpTo(batch, n + 1, leafletMap.markers, markerMap, layers)
      ensures ListsKept(mm, markerMap, EditedIds(batch)[..n + 1])
      ensures MarkersKept(markers, shown, leafletMap.markers, leafletMap.shown, Detached(mm, EditedIds(batch)[..n + 1]))
      ensures polygons == if EditsPolygon(batch[n], layers) then UpdateArea(old(polygons), Some(batch[n].id), batch[n].area) else old(polygons)
      ensures EditsPolygon(batch[n], layers) ==>
                && polygonLayer == Some(batch[n].id) && isFormOpen
                && polygonData == FormData(batch[n].area, layers[batch[n].id].country.OrEmpty(), layers[batch[n].id].price.OrEmpty())
      ensures !EditsPolygon(batch[n], layers) ==>
                polygonData == old(polygonData) && polygonLayer == old(polygonLayer) && isFormOpen == old(isFormOpen)
      ensures FormBound(batch, n + 1, layers, polygonData, polygonLayer, isFormOpen, formBefore)
      ensures Valid()
    {
      ghost var before, mmBefore, shownBefore := leafletMap.markers, markerMap, leafletMap.shown;
      EditLayer(batch[n]);
      AlignedStep(batch, n, layers, before, leafletMap.markers, mmBefore, markerMap);
      KeptStep(mm, mmBefore, markerMap, markers, shown, before, shownBefore, leafletMap.markers, leafletMap.shown,
               EditedIds(batch), n);
    }

    /** One step of DELETED: the n-th layer goes, given that the ones before
        it are gone from the values the batch started with. */
    method DeleteNth(batch: seq<Id>, n: nat, ghost ps: seq<PolygonData>, ghost mm: map<Id, seq<MarkerRef>>,
                     ghost ls: map<Id, Layer>, ghost shown: set<MarkerRef>)
      requires Valid() && n < |batch|
      requires forall i :: 0 <= i < |batch| ==> batch[i] in ls
      requires forall i, j :: 0 <= i < j < |batch| ==> batch[i] != batch[j]
      requires layers == ls - Elems(batch[..n]) && markerMap == mm - Elems(batch[..n])
      requires polygons == RemoveIds(ps, batch[..n])
      requires leafletMap.shown == shown - Detached(mm, batch[..n])
      modifies this, leafletMap
      ensures layers == ls - Elems(batch[..n + 1]) && markerMap == mm - Elems(batch[..n + 1])
      ensures polygons == RemoveIds(ps, batch[..n + 1])
      ensures leafletMap.markers == old(leafletMap.markers)
      ensures leafletMap.shown == shown - Detached(mm, batch[..n + 1])
      ensures highlightedIds == old(highlightedIds) && inputValues == old(inputValues)
      ensures polygonData == old(polygonData) && polygonLayer == old(polygonLayer)
      ensures isFormOpen == old(isFormOpen) && isEditMode == old(isEditMode)
      ensures Valid()
    {
      DeletedStep(ps, mm, ls, shown, batch, n, markerMap, leafletMap.shown);
      DeleteLayer(batch[n]);
    }

    /** One layer of a DELETED event. Leaflet has already taken it out of the
        drawn-items group; a polygon's record leaves the registry and its
        markers leave the map and the tracker. */
    method DeleteLayer(id: Id)
      requires Valid() && id in layers
      modifies this, leafletMap
      ensures layers == old(layers) - {id}
      ensures polygons == RemoveId(old(polygons), id) && !HasRecord(polygons, id)
      ensures markerMap == old(markerMap) - {id}
      ensures leafletMap.markers == old(leafletMap.markers)
      ensures leafletMap.shown == old(leafletMap.shown) - Elems(old(MarkersOf(id)))
      ensures highlightedIds == old(highlightedIds) && inputValues == old(inputValues)
      ensures polygonData == old(polygonData) && polygonLayer == old(polygonLayer)
      ensures isFormOpen == old(isFormOpen) && isEditMode == old(isEditMode)
      ensures Valid()
    {
      DeleteKeepsInvariant(polygons, markerMap, layers, highlightedIds, leafletMap.shown, id, MarkersOf(id));
      if layers[id].isPolygon {
        DetachAll(leafletMap, MarkersOf(id));
        layers, polygons, markerMap := layers - {id}, RemoveId(polygons, id), markerMap - {id};
      } else {
        RemoveAbsent(polygons, id);
        layers, markerMap := layers - {id}, markerMap - {id};
      }
    }

    /** DELETED: every layer of the batch is deleted in turn. Leaflet hands
        each deleted layer over once. */
    method Deleted(batch: seq<Id>)
      requires Valid()
      requires forall i :: 0 <= i < |batch| ==> batch[i] in layers
      requires forall i, j :: 0 <= i < j < |batch| ==> batch[i] != batch[j]
      modifies this, leafletMap
      ensures layers == old(layers) - Elems(batch)
      ensures markerMap == old(markerMap) - Elems(batch)
      ensures polygons == RemoveIds(old(polygons), batch)
      ensures leafletMap.markers == old(leafletMap.markers)
      ensures leafletMap.shown == old(leafletMap.shown) - Detached(old(markerMap), batch)
      ensures highlightedIds == old(highlightedIds) && inputValues == old(inputValues)
      ensures polygonData == old(polygonData) && polygonLayer == old(polygonLayer)
      ensures isFormOpen == old(isFormOpen) && isEditMode == old(isEditMode)
      ensures Valid()
    {
      for n := 0 to |batch|
        invariant layers == old(layers) - Elems(batch[..n])
        invariant markerMap == old(markerMap) - Elems(batch[..n])
        invariant polygons == RemoveIds(old(polygons), batch[..n])
        invariant leafletMap.markers == old(leafletMap.markers)
        invariant leafletMap.shown == old(leafletMap.shown) - Detached(old(markerMap), batch[..n])
        invariant highlightedIds == old(highlightedIds) && inputValues == old(inputValues)
        invariant polygonData == old(polygonData) && polygonLayer == old(polygonLayer)
        invariant isFormOpen == old(isFormOpen) && isEditMode == old(isEditMode)
        invariant Valid()
      {
        DeleteNth(batch, n, old(polygons), old(markerMap), old(layers), old(leafletMap.shown));
      }
      assert batch[..|batch|] == batch;
    }

    /** `handleHighlightPolygon(id)`: the id is toggled in the highlight
        list and the shape's layer restyled to match. */
    method HandleHighlight(id: Id)
      requires Valid()
      modifies this
      ensures highlightedIds == Toggle(old(highlightedIds), id)
      ensures layers == Restyle(old(layers), polygons, id in old(highlightedIds), id)
      ensures polygons == old(polygons) && markerMap == old(markerMap) && inputValues == old(inputValues)
      ensures polygonData == old(polygonData) && polygonLayer == old(polygonLayer)
      ensures isFormOpen == old(isFormOpen) && isEditMode == old(isEditMode)
      ensures Valid()
    {
      HighlightKeepsInvariant(polygons, markerMap, layers, highlightedIds, leafletMap.shown, id);
      layers, highlightedIds := Restyle(layers, polygons, id in highlightedIds, id), Toggle(highlightedIds, id);
    }

    /** `handleFormSubmit(country, price)`: with a layer bound to the form,
        that layer takes the values as options and a popup for the form's
        area, its record and its list buffer take them, and the form
        closes. Without one, nothing happens. */
    method HandleFormSubmit(country: string, price: string)
      requires Valid()
      modifies this
      ensures old(polygonLayer).None? ==>
                && polygons == old(polygons) && layers == old(layers)
                && inputValues == old(inputValues) && isFormOpen == old(isFormOpen)
      ensures old(polygonLayer).Some? ==>
                polygons == SetMetadata(old(polygons), old(polygonLayer).value, Str(country), Str(price))
      ensures old(polygonLayer).Some? ==>
                inputValues == old(inputValues)[old(polygonLayer).value := Pending(Str(country), Str(price))]
      ensures old(polygonLayer).Some? ==>
                layers == Labelled(old(layers), old(polygonLayer).value, polygonData.area, Str(country), Str(price))
      ensures old(polygonLayer).Some? ==> !isFormOpen
      ensures markerMap == old(markerMap) && highlightedIds == old(highlightedIds)
      ensures polygonData == old(polygonData) && polygonLayer == old(polygonLayer)
      ensures isEditMode == old(isEditMode)
      ensures Valid()
    {
      if polygonLayer.Some? {
        var lid := polygonLayer.value;
        var layers' := Labelled(layers, lid, polygonData.area, Str(country), Str(price));
        var updated := SetMetadata(polygons, lid, Str(country), Str(price));
        MetadataKeepsInvariant(polygons, updated, markerMap, layers, layers', highlightedIds, leafletMap.shown);
        layers, polygons, inputValues, isFormOpen :=
          layers', updated, inputValues[lid := Pending(Str(country), Str(price))], false;
      }
    }

    /** `handleInputChange(id, field, value)`: only the list buffer changes. */
    method HandleInputChange(id: Id, field: Field, value: string)
      requires Valid()
      modifies this
      ensures inputValues == SetInput(old(inputValues), id, field, value)
      ensures polygons == old(polygons) && layers == old(layers) && markerMap == old(markerMap)
      ensures highlightedIds == old(highlightedIds)
      ensures polygonData == old(polygonData) && polygonLayer == old(polygonLayer)
      ensures isFormOpen == old(isFormOpen) && isEditMode == old(isEditMode)
      ensures Valid()
    {
      inputValues := SetInput(inputValues, id, field, value);
    }

    /** `handleSaveAllChanges`: every record of the registry whose layer is
        in the group and which has an edit buffer takes the buffered country
        and price, and so do its layer's options; the layer's popup shows
        the record's area. Nothing else changes. */
    method HandleSaveAllChanges()
      requires Valid()
      modifies this
      ensures |polygons| == |old(polygons)|
      ensures forall i :: 0 <= i < |polygons| ==> polygons[i] == Committed(old(polygons)[i], inputValues, old(layers))
      ensures layers == SaveLayers(old(layers), old(polygons), inputValues)
      ensures markerMap == old(markerMap) && highlightedIds == old(highlightedIds) && inputValues == old(inputValues)
      ensures polygonData == old(polygonData) && polygonLayer == old(polygonLayer)
      ensures isFormOpen == old(isFormOpen) && isEditMode == old(isEditMode)
      ensures Valid()
    {
      var qs, ls := SaveAll(polygons, layers, inputValues);
      MetadataKeepsInvariant(polygons, qs, markerMap, layers, ls, highlightedIds, leafletMap.shown);
      polygons, layers := qs, ls;
    }

    /** A click on a polygon layer: outside edit mode it only opens the
        layer's popup; in edit mode the form opens on the layer's area and
        options, but no record is updated (the click path passes no id). */
    method LayerClicked(id: Id, area: string)
      requires Valid() && id in layers && layers[id].isPolygon
      modifies this
      ensures polygons == old(polygons) && layers == old(layers) && markerMap == old(markerMap)
      ensures highlightedIds == old(highlightedIds) && inputValues == old(inputValues)
      ensures isEditMode == old(isEditMode)
      ensures !old(isEditMode) ==>
                polygonData == old(polygonData) && polygonLayer == old(polygonLayer) && isFormOpen == old(isFormOpen)
      ensures old(isEditMode) ==>
                && polygonData == FormData(area, layers[id].country.OrEmpty(), layers[id].price.OrEmpty())
                && polygonLayer == Some(id) && isFormOpen
      ensures Valid()
    {
      if isEditMode {
        UpdateAreaNoMatch(polygons, None, area);
        EditPolygonProperties(id, None, area);
      }
    }

    /** EDITSTART. */
    method EditStart()
      requires Valid()
      modifies this
      ensures isEditMode
      ensures polygons == old(polygons) && layers == old(layers) && markerMap == old(markerMap)
      ensures highlightedIds == old(highlightedIds) && inputValues == old(inputValues)
      ensures polygonData == old(polygonData) && polygonLayer == old(polygonLayer) && isFormOpen == old(isFormOpen)
      ensures Valid()
    {
      isEditMode := true;
    }

    /** EDITSTOP. */
    method EditStop()
      requires Valid()
      modifies this
      ensures !isEditMode
      ensures polygons == old(polygons) && layers == old(layers) && markerMap == old(markerMap)
      ensures highlightedIds == old(highlightedIds) && inputValues == old(inputValues)
      ensures polygonData == old(polygonData) && polygonLayer == old(polygonLayer) && isFormOpen == old(isFormOpen)
      ensures Valid()
    {
      isEditMode := false;
    }

    /** The form is rendered, bound to the current form data, exactly while
        it is open. */
    method MountForm() returns (f: PolygonForm)
      requires isFormOpen
      ensures fresh(f) && f.polygonData == Some(polygonData)
      ensures f.countryInput == polygonData.country && f.priceInput == polygonData.price
    {
      f := new PolygonForm(Some(polygonData));
    }

    /** The form's callbacks: `onSubmit` is `handleFormSubmit`, `onClose`
        closes the form. */
    method Deliver(e: FormEvent)
      requires Valid()
      modifies this
      ensures e.Closed? ==> !isFormOpen && polygons == old(polygons) && layers == old(layers) && inputValues == old(inputValues)
      ensures e.NoEvent? ==> isFormOpen == old(isFormOpen) && polygons == old(polygons) && layers == old(layers) && inputValues == old(inputValues)
      ensures e.Submitted? && old(polygonLayer).Some? ==>
                && !isFormOpen
                && polygons == SetMetadata(old(polygons), old(polygonLayer).value, Str(e.country), Str(e.price))
                && inputValues == old(inputValues)[old(polygonLayer).value := Pending(Str(e.country), Str(e.price))]
                && layers == Labelled(old(layers), old(polygonLayer).value, polygonData.area, Str(e.country), Str(e.price))
      ensures e.Submitted? && old(polygonLayer).None? ==>
                && polygons == old(polygons) && layers == old(layers)
                && inputValues == old(inputValues) && isFormOpen == old(isFormOpen)
      ensures markerMap == old(markerMap) && highlightedIds == old(highlightedIds)
      ensures polygonData == old(polygonData) && polygonLayer == old(polygonLayer)
      ensures isEditMode == old(isEditMode)
      ensures Valid()
    {
      match e
      case Submitted(country, price) => HandleFormSubmit(country, price);
      case Closed => isFormOpen := false;
      case NoEvent =>
    }

    /** The list panel as rendered: a row for every annotated record, in
        registry order. */
    function ListRows(): (r: seq<Row>)
      reads this
      ensures |r| == |Listed(polygons)|
      ensures forall id :: Shows(r, id) <==> AnnotatedId(polygons, id)
    {
      RowsShowAnnotatedAll(polygons, inputValues, highlightedIds);
      Rows(polygons, inputValues, highlightedIds)
    }
  }

  /** The panel shows a row for an id exactly when the registry holds an
      annotated record with that id, for every id at once. */
  lemma RowsShowAnnotatedAll(ps: seq<PolygonData>, buf: map<Id, Pending>, hl: seq<Id>)
    ensures forall id :: Shows(Rows(ps, buf, hl), id) <==> AnnotatedId(ps, id)
  {
  }
}
