/** The invariant that keeps the map page's three views of its shapes in
    step (registry, vertex-marker tracker, drawn layers), and the lemmas
    that each kind of handler keeps it. */
module Consistency {
  import opened Common
  import opened Surface
  import opened Registry
  import opened Panel
  import opened Markers

  /** Every marker the tracker holds. */
  ghost function AllMarkers(mm: map<Id, seq<MarkerRef>>): set<MarkerRef> {
    set id, h | id in mm && h in mm[id] :: h
  }

  /** Registry, marker map and polygon layers have the same ids, and the
      records' own highlight flag is never set. */
  ghost predicate Synced(ps: seq<PolygonData>, mm: map<Id, seq<MarkerRef>>, layers: map<Id, Layer>) {
    && UniqueIds(ps)
    && (forall id :: id in mm <==> HasRecord(ps, id))
    && (forall id :: id in layers ==> (layers[id].isPolygon <==> id in mm))
    && mm.Keys <= layers.Keys
    && (forall p :: p in ps ==> !p.highlighted)
  }

  /** No marker is tracked twice. */
  ghost predicate Disjoint(mm: map<Id, seq<MarkerRef>>) {
    && (forall id :: id in mm ==> Distinct(mm[id]))
    && (forall id1, id2, h :: id1 in mm && id2 in mm && id1 != id2 && h in mm[id1] ==> h !in mm[id2])
  }

  /** A shape's layer is red while its id is highlighted and in its
      original colour otherwise. */
  ghost predicate StylesFollow(ps: seq<PolygonData>, layers: map<Id, Layer>, hl: seq<Id>) {
    forall p :: p in ps ==> StyledAs(p, layers, hl)
  }

  /** The colour rule for one record's layer. */
  ghost predicate StyledAs(p: PolygonData, layers: map<Id, Layer>, hl: seq<Id>) {
    p.id in layers ==>
      layers[p.id].color == if p.id in hl then Some(HighlightColour) else p.originalStyle.color
  }

  /** `after` differs from `before` at most in layer options and popups:
      same layers, same kinds, same colours. */
  ghost predicate SameLook(before: map<Id, Layer>, after: map<Id, Layer>) {
    && after.Keys == before.Keys
    && forall id :: id in before ==>
         after[id].isPolygon == before[id].isPolygon && after[id].color == before[id].color
  }

  /** The component's invariant over values: the three views are in step,
      no marker is tracked twice, every tracked marker is shown, and each
      shape's colour follows the highlight list. */
  ghost predicate Inv(ps: seq<PolygonData>, mm: map<Id, seq<MarkerRef>>, layers: map<Id, Layer>,
                      hl: seq<Id>, shown: set<MarkerRef>) {
    && Synced(ps, mm, layers)
    && Disjoint(mm)
    && AllMarkers(mm) <= shown
    && StylesFollow(ps, layers, hl)
  }

  /** A list held under an id is part of what the tracker holds. */
  lemma ListTracked(mm: map<Id, seq<MarkerRef>>, id: Id)
    requires id in mm
    ensures Elems(mm[id]) <= AllMarkers(mm)
  {
  }

  /** Changing only metadata (areas, country, price, options, popups) keeps
      the invariant. */
  lemma MetadataKeepsInvariant(ps: seq<PolygonData>, ps': seq<PolygonData>, mm: map<Id, seq<MarkerRef>>,
                               layers: map<Id, Layer>, layers': map<Id, Layer>, hl: seq<Id>, shown: set<MarkerRef>)
    requires Inv(ps, mm, layers, hl, shown)
    requires SameShape(ps, ps') && SameLook(layers, layers')
    ensures Inv(ps', mm, layers', hl, shown)
  {
  }

  /** CREATED for a polygon with a fresh id, whose new markers nobody tracks
      and are all shown, keeps the invariant. */
  lemma CreateKeepsInvariant(ps: seq<PolygonData>, mm: map<Id, seq<MarkerRef>>, layers: map<Id, Layer>,
                             hl: seq<Id>, shown: set<MarkerRef>, shown': set<MarkerRef>,
                             rec: PolygonData, layer: Layer, ms: seq<MarkerRef>)
    requires Inv(ps, mm, layers, hl, shown)
    requires rec.id !in layers && rec.id !in hl && !rec.highlighted
    requires layer.isPolygon && layer.color == rec.originalStyle.color
    requires Distinct(ms) && Elems(ms) !! AllMarkers(mm)
    requires shown + Elems(ms) <= shown'
    ensures Inv(ps + [rec], mm[rec.id := ms], layers[rec.id := layer], hl, shown')
  {
    AppendFresh(ps, rec);
    var mm' := mm[rec.id := ms];
    forall id1, id2, h | id1 in mm' && id2 in mm' && id1 != id2 && h in mm'[id1] ensures h !in mm'[id2] {
      if id1 == rec.id {
        assert h in Elems(ms);
        assert h in mm[id2] ==> h in AllMarkers(mm);
      } else if id2 == rec.id {
        assert h in AllMarkers(mm);
      }
    }
    forall p | p in ps + [rec] ensures StyledAs(p, layers[rec.id := layer], hl) {
      if p != rec {
        assert StyledAs(p, layers, hl);
      }
    }
    forall h | h in AllMarkers(mm') ensures h in shown' {
      var k :| k in mm' && h in mm'[k];
      if k != rec.id {
        assert h in mm[k];
      } else {
        assert h in Elems(ms);
      }
    }
  }

  /** Replacing one shape's marker list by a list made of its own markers
      and markers nobody tracked, all shown, while every other tracked
      marker stays shown, keeps the invariant. */
  lemma ReplaceKeepsInvariant(ps: seq<PolygonData>, mm: map<Id, seq<MarkerRef>>, layers: map<Id, Layer>,
                              hl: seq<Id>, shown: set<MarkerRef>, shown': set<MarkerRef>, id: Id, ms: seq<MarkerRef>)
    requires Inv(ps, mm, layers, hl, shown) && id in mm
    requires Distinct(ms) && forall h :: h in ms ==> h in mm[id] || h !in AllMarkers(mm)
    requires Elems(ms) <= shown'
    requires forall h :: h in shown && h !in mm[id] ==> h in shown'
    ensures Inv(ps, mm[id := ms], layers, hl, shown')
  {
  }

  /** DELETED of a layer, with the markers of its list taken off the map,
      keeps the invariant. */
  lemma DeleteKeepsInvariant(ps: seq<PolygonData>, mm: map<Id, seq<MarkerRef>>, layers: map<Id, Layer>,
                             hl: seq<Id>, shown: set<MarkerRef>, id: Id, gone: seq<MarkerRef>)
    requires Inv(ps, mm, layers, hl, shown)
    requires gone == if id in mm then mm[id] else []
    ensures Inv(RemoveId(ps, id), mm - {id}, layers - {id}, hl, shown - Elems(gone))
  {
    RemoveIdKeepsUnique(ps, id);
    var ps' := RemoveId(ps, id);
    forall k ensures k in mm - {id} <==> HasRecord(ps', k) {
      if HasRecord(ps, k) && k != id {
        var p :| p in ps && p.id == k;
        assert p in ps';
      }
    }
    forall p | p in ps' ensures StyledAs(p, layers - {id}, hl) {
      assert StyledAs(p, layers, hl);
    }
    forall h | h in AllMarkers(mm - {id}) ensures h in shown - Elems(gone) {
      var k :| k in mm - {id} && h in mm[k];
      assert h in AllMarkers(mm);
    }
  }

  /** A highlight toggle keeps the invariant. */
  lemma HighlightKeepsInvariant(ps: seq<PolygonData>, mm: map<Id, seq<MarkerRef>>, layers: map<Id, Layer>,
                                hl: seq<Id>, shown: set<MarkerRef>, id: Id)
    requires Inv(ps, mm, layers, hl, shown)
    ensures Inv(ps, mm, Restyle(layers, ps, id in hl, id), Toggle(hl, id), shown)
  {
  }
}
