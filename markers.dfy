/** The vertex-marker tracker's list operations on the Leaflet map: building
    the marker list of a new shape, reconciling it with a reshaped boundary,
    taking it off the map. A list holds marker handles, in vertex order. */
module Markers {
  import opened Common
  import opened Surface

  /** No marker occurs twice in the list. */
  ghost predicate Distinct(ms: seq<MarkerRef>) {
    forall i, j :: 0 <= i < j < |ms| ==> ms[i] != ms[j]
  }

  /** `after` keeps every marker of `before` as it was, and may hold more. */
  ghost predicate Extends(before: map<MarkerRef, MarkerState>, after: map<MarkerRef, MarkerState>) {
    forall h :: h in before ==> h in after && after[h] == before[h]
  }

  /** Marker i exists and sits at vertex i, for every vertex, and there are
      no others. */
  ghost predicate AlignedWith(store: map<MarkerRef, MarkerState>, ms: seq<MarkerRef>, coords: seq<LatLng>) {
    && |ms| == |coords|
    && forall i :: 0 <= i < |ms| ==> ms[i] in store && store[ms[i]].pos == coords[i]
  }

  /** Creation: one new draggable marker per vertex, in vertex order, each
      on the map with a popup for its own coordinates. No existing marker
      changes. */
  method Materialize(m: LeafletMap, coords: seq<LatLng>) returns (ms: seq<MarkerRef>)
    requires m.Valid()
    modifies m
    ensures m.Valid()
    ensures AlignedWith(m.markers, ms, coords) && Distinct(ms)
    ensures forall i :: 0 <= i < |ms| ==>
              ms[i] !in old(m.markers) && m.markers[ms[i]] == MarkerState(coords[i], true, coords[i])
    ensures Extends(old(m.markers), m.markers)
    ensures m.markers.Keys == old(m.markers).Keys + Elems(ms)
    ensures m.shown == old(m.shown) + Elems(ms)
  {
    ms := [];
    for i := 0 to |coords|
      invariant m.Valid()
      invariant |ms| == i && Distinct(ms)
      invariant forall k :: 0 <= k < i ==>
                  ms[k] !in old(m.markers) && ms[k] in m.markers &&
                  m.markers[ms[k]] == MarkerState(coords[k], true, coords[k])
      invariant Extends(old(m.markers), m.markers)
      invariant m.markers.Keys == old(m.markers).Keys + Elems(ms)
      invariant m.shown == old(m.shown) + Elems(ms)
    {
      var marker := m.AddMarker(coords[i], true);
      ms := ms + [marker];
    }
  }

  /** Reshape: grow at the tail with new (non-draggable) markers, move every
      marker that has a vertex onto it, then pop the surplus from the tail,
      taking each popped marker off the map. Markers of other lists are not
      touched. */
  method Reconcile(m: LeafletMap, ms: seq<MarkerRef>, coords: seq<LatLng>) returns (r: seq<MarkerRef>)
    requires m.Valid() && Distinct(ms)
    requires forall i :: 0 <= i < |ms| ==> ms[i] in m.markers
    modifies m
    ensures m.Valid()
    ensures AlignedWith(m.markers, r, coords) && Distinct(r)
    // markers that keep a vertex are the same markers, only moved
    ensures forall i :: 0 <= i < |r| && i < |ms| ==>
              r[i] == ms[i] && m.markers[r[i]] == old(m.markers)[ms[i]].(pos := coords[i])
    // growth appends new markers at the tail
    ensures forall i :: |ms| <= i < |r| ==>
              r[i] !in old(m.markers) && m.markers[r[i]] == MarkerState(coords[i], false, coords[i])
    ensures m.markers.Keys == old(m.markers).Keys + Elems(r)
    // shrinking leaves the popped markers where they were
    ensures forall i :: |r| <= i < |ms| ==> m.markers[ms[i]] == old(m.markers)[ms[i]]
    ensures forall h :: h in old(m.markers) && h !in ms ==> m.markers[h] == old(m.markers)[h]
    ensures |ms| <= |coords| ==> m.shown == old(m.shown) + Elems(r[|ms|..])
    ensures |coords| <= |ms| ==> m.shown == old(m.shown) - Elems(ms[|coords|..])
  {
    r := ms;
    if |coords| > |r| {
      r := Grow(m, r, coords);
    }
    Reposition(m, r, coords);
    if |coords| < |r| {
      r := Shrink(m, r, |coords|);
    }
  }

  /** The push loop: one new marker for each vertex past the end of the list. */
  method Grow(m: LeafletMap, ms: seq<MarkerRef>, coords: seq<LatLng>) returns (r: seq<MarkerRef>)
    requires m.Valid() && Distinct(ms) && |ms| < |coords|
    requires forall i :: 0 <= i < |ms| ==> ms[i] in m.markers
    modifies m
    ensures m.Valid()
    ensures |r| == |coords| && r[..|ms|] == ms && Distinct(r)
    ensures forall k :: |ms| <= k < |r| ==>
              r[k] !in old(m.markers) && r[k] in m.markers &&
              m.markers[r[k]] == MarkerState(coords[k], false, coords[k])
    ensures Extends(old(m.markers), m.markers)
    ensures m.markers.Keys == old(m.markers).Keys + Elems(r)
    ensures m.shown == old(m.shown) + Elems(r[|ms|..])
  {
    r := ms;
    for i := |ms| to |coords|
      invariant m.Valid()
      invariant |r| == i && r[..|ms|] == ms && Distinct(r)
      invariant forall k :: |ms| <= k < i ==>
                  r[k] !in old(m.markers) && r[k] in m.markers &&
                  m.markers[r[k]] == MarkerState(coords[k], false, coords[k])
      invariant Extends(old(m.markers), m.markers)
      invariant m.markers.Keys == old(m.markers).Keys + Elems(r)
      invariant m.shown == old(m.shown) + Elems(r[|ms|..])
    {
      var marker := m.AddMarker(coords[i], false);
      assert (r + [marker])[|ms|..] == r[|ms|..] + [marker];
      r := r + [marker];
    }
  }

  /** `newCoords.forEach`: every vertex that has a marker moves it there. */
  method Reposition(m: LeafletMap, ms: seq<MarkerRef>, coords: seq<LatLng>)
    requires m.Valid() && Distinct(ms)
    requires forall i :: 0 <= i < |ms| ==> ms[i] in m.markers
    modifies m
    ensures m.Valid()
    ensures m.markers.Keys == old(m.markers).Keys && m.shown == old(m.shown)
    ensures forall k :: 0 <= k < |ms| ==>
              m.markers[ms[k]] == if k < |coords| then old(m.markers)[ms[k]].(pos := coords[k]) else old(m.markers)[ms[k]]
    ensures forall h :: h in old(m.markers) && h !in ms ==> m.markers[h] == old(m.markers)[h]
  {
    for i := 0 to |coords|
      invariant m.Valid()
      invariant m.markers.Keys == old(m.markers).Keys && m.shown == old(m.shown)
      invariant forall k :: 0 <= k < |ms| ==>
                  m.markers[ms[k]] == if k < i then old(m.markers)[ms[k]].(pos := coords[k]) else old(m.markers)[ms[k]]
      invariant forall h :: h in old(m.markers) && h !in ms ==> m.markers[h] == old(m.markers)[h]
    {
      if i < |ms| {
        m.SetLatLng(ms[i], coords[i]);
      }
    }
  }

  /** The pop loop: remove markers from the tail down to `n`, taking each
      off the map. */
  method Shrink(m: LeafletMap, ms: seq<MarkerRef>, n: nat) returns (r: seq<MarkerRef>)
    requires m.Valid() && n < |ms|
    modifies m
    ensures m.Valid()
    ensures r == ms[..n]
    ensures m.markers == old(m.markers)
    ensures m.shown == old(m.shown) - Elems(ms[n..])
  {
    r := ms;
    var i := |ms| - 1;
    while i >= n
      invariant n - 1 <= i < |ms|
      invariant r == ms[..i + 1]
      invariant m.Valid() && m.markers == old(m.markers)
      invariant m.shown == old(m.shown) - Elems(ms[i + 1..])
    {
      var markerToRemove := r[i];
      m.RemoveLayer(markerToRemove);
      assert ms[i..] == [ms[i]] + ms[i + 1..];
      r := r[..|r| - 1];
      i := i - 1;
    }
  }

  /** Deletion: every marker of the list leaves the map; none moves. */
  method DetachAll(m: LeafletMap, ms: seq<MarkerRef>)
    requires m.Valid()
    modifies m
    ensures m.Valid()
    ensures m.markers == old(m.markers)
    ensures m.shown == old(m.shown) - Elems(ms)
  {
    for i := 0 to |ms|
      invariant m.Valid() && m.markers == old(m.markers)
      invariant m.shown == old(m.shown) - Elems(ms[..i])
    {
      m.RemoveLayer(ms[i]);
      assert ms[..i + 1] == ms[..i] + [ms[i]];
    }
    assert ms[..|ms|] == ms;
  }
}
