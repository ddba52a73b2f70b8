/** The Map Surface collaborator, reduced to the state the handlers read and
    write: layers of the drawn-items group and the map's vertex markers. Geometry,
    rendering and popup HTML are abstracted away. */
module Surface {
  import opened Common

  /** Leaflet's `_leaflet_id` stamp: unique and never reused. */
  type Id = int

  /** A vertex position; the model never computes on it. */
  datatype LatLng = LatLng(lat: real, lng: real)

  type Colour = string

  /** The colour a highlighted shape is drawn in. */
  const HighlightColour: Colour := "red"

  /** A shape's style as captured when it is created: its colour option. */
  datatype Style = Style(color: Option<Colour>)

  /** What a polygon's popup was last bound to show. */
  datatype Popup = NoPopup | Info(area: string, country: Text, price: Text)

  /** One layer of the drawn-items group: its kind, its current colour, the
      two custom options (`country`, `price`) and its popup. */
  datatype Layer = Layer(isPolygon: bool, color: Option<Colour>, country: Text, price: Text, popup: Popup)

  /** A handle on one `L.Marker` object: identity, nothing more. */
  type MarkerRef = nat

  /** The state of one marker object: where it sits, whether the user may
      drag it, and the coordinates its popup text was bound to. The popup is
      bound once, when the marker is made; moving the marker does not rebind
      it. */
  datatype MarkerState = MarkerState(pos: LatLng, draggable: bool, popupAt: LatLng)

  /** The Leaflet map, as far as vertex markers go: every marker object made
      so far, and the markers currently added to the map. */
  class LeafletMap {
    var markers: map<MarkerRef, MarkerState>
    var shown: set<MarkerRef>
    /** Handles given out so far; the next marker gets this one. */
    var made: nat

    /** Only existing markers are shown, and every handle given out is
        below `made`, so a new handle is never an old one. */
    ghost predicate Valid()
      reads this
    {
      && shown <= markers.Keys
      && forall h :: h in markers ==> h < made
    }

    /** A map with no markers. */
    constructor ()
      ensures Valid()
      ensures markers == map[] && shown == {}
    {
      markers, shown, made := map[], {}, 0;
    }

    /** A new marker at `at`, draggable or not, added to the map with a
        popup bound to `at`: a marker object that did not exist before, shown on the map. */
    method AddMarker(at: LatLng, draggable: bool) returns (h: MarkerRef)
      requires Valid()
      modifies this
      ensures Valid()
      ensures h !in old(markers)
      ensures markers == old(markers)[h := MarkerState(at, draggable, at)]
      ensures shown == old(shown) + {h}
    {
      h := made;
      markers, shown, made := markers[h := MarkerState(at, draggable, at)], shown + {h}, made + 1;
    }

    /** `marker.setLatLng(at)`: the marker moves; its popup does not. */
    method SetLatLng(h: MarkerRef, at: LatLng)
      requires Valid() && h in markers
      modifies this
      ensures Valid()
      ensures markers == old(markers)[h := old(markers)[h].(pos := at)]
      ensures shown == old(shown)
    {
      markers := markers[h := markers[h].(pos := at)];
    }

    /** `map.removeLayer(marker)`: the marker leaves the map; the object
        itself, and where it was, remain. */
    method RemoveLayer(h: MarkerRef)
      requires Valid()
      modifies this
      ensures Valid()
      ensures shown == old(shown) - {h}
      ensures markers == old(markers)
    {
      shown := shown - {h};
    }
  }
}
