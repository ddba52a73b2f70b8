/** The shape registry: the `polygons` list of records and the id-keyed,
    copy-on-write updates the handlers apply to it. */
module Registry {
  import opened Common
  import opened Surface

  /** One registry entry. `highlighted` is written once, at creation, and
      never updated afterwards. */
  datatype PolygonData = PolygonData(
    id: Id,
    area: string,
    country: Text,
    price: Text,
    highlighted: bool,
    originalStyle: Style)

  /** Some record carries this id. */
  ghost predicate HasRecord(ps: seq<PolygonData>, id: Id) {
    exists p :: p in ps && p.id == id
  }

  /** No two records share an id. */
  ghost predicate UniqueIds(ps: seq<PolygonData>) {
    forall i, j :: 0 <= i < j < |ps| ==> ps[i].id != ps[j].id
  }

  /** Two versions of one record: same id, flag and original style. */
  ghost predicate SameRecord(p: PolygonData, q: PolygonData) {
    p.id == q.id && p.highlighted == q.highlighted && p.originalStyle == q.originalStyle
  }

  /** `after` differs from `before` at most in the area, country and price
      of its records: same ids, in the same order, same highlight flags and
      original styles. */
  ghost predicate SameShape(before: seq<PolygonData>, after: seq<PolygonData>) {
    && |after| == |before|
    && forall i :: 0 <= i < |before| ==> SameRecord(before[i], after[i])
  }

  /** The first record with that id, if any. */
  function Find(ps: seq<PolygonData>, id: Id): (r: Option<PolygonData>)
    ensures r.None? <==> !HasRecord(ps, id)
    ensures r.Some? ==> exists i :: 0 <= i < |ps| && ps[i] == r.value && r.value.id == id &&
                                    forall j :: 0 <= j < i ==> ps[j].id != id
  {
    if ps == [] then None
    else if ps[0].id == id then Some(ps[0])
    else Find(ps[1..], id)
  }

  /** The registry after an area update: each record whose id is `leafletId`
      is copied with the new area. An absent `leafletId` (the click path)
      matches no record. */
  function UpdateArea(ps: seq<PolygonData>, leafletId: Option<Id>, area: string): (r: seq<PolygonData>)
    ensures SameShape(ps, r)
    ensures forall i :: 0 <= i < |ps| ==>
              r[i] == if leafletId == Some(ps[i].id) then ps[i].(area := area) else ps[i]
  {
    if ps == [] then []
    else
      var head := if leafletId == Some(ps[0].id) then ps[0].(area := area) else ps[0];
      [head] + UpdateArea(ps[1..], leafletId, area)
  }

  /** When nothing matches (absent id, or a shape already deleted), the
      registry is unchanged. */
  lemma UpdateAreaNoMatch(ps: seq<PolygonData>, leafletId: Option<Id>, area: string)
    requires leafletId.None? || !HasRecord(ps, leafletId.value)
    ensures UpdateArea(ps, leafletId, area) == ps
  {
  }

  /** The registry after a metadata update: each record with the id is
      copied with the new country and price. */
  function SetMetadata(ps: seq<PolygonData>, id: Id, country: Text, price: Text): (r: seq<PolygonData>)
    ensures SameShape(ps, r)
    ensures forall i :: 0 <= i < |ps| ==>
              r[i] == if ps[i].id == id then ps[i].(country := country, price := price) else ps[i]
  {
    if ps == [] then []
    else
      var head := if ps[0].id == id then ps[0].(country := country, price := price) else ps[0];
      [head] + SetMetadata(ps[1..], id, country, price)
  }

  /** The registry with every record of the id filtered out. */
  function RemoveId(ps: seq<PolygonData>, id: Id): (r: seq<PolygonData>)
    ensures forall p :: p in r <==> p in ps && p.id != id
    ensures |r| <= |ps|
  {
    if ps == [] then []
    else if ps[0].id == id then RemoveId(ps[1..], id)
    else [ps[0]] + RemoveId(ps[1..], id)
  }

  /** Removing a record that is not there leaves the registry as it was. */
  lemma {:induction false} RemoveAbsent(ps: seq<PolygonData>, id: Id)
    requires !HasRecord(ps, id)
    ensures RemoveId(ps, id) == ps
  {
    if ps != [] {
      assert ps[0] in ps;
      assert !HasRecord(ps[1..], id) by {
        forall p | p in ps[1..] ensures p.id != id { assert p in ps; }
      }
      RemoveAbsent(ps[1..], id);
    }
  }

  /** Filtering keeps ids unique. */
  lemma {:induction false} RemoveIdKeepsUnique(ps: seq<PolygonData>, id: Id)
    requires UniqueIds(ps)
    ensures UniqueIds(RemoveId(ps, id))
  {
    if ps != [] {
      assert UniqueIds(ps[1..]) by {
        forall i, j | 0 <= i < j < |ps[1..]| ensures ps[1..][i].id != ps[1..][j].id {
          assert ps[1..][i] == ps[i + 1] && ps[1..][j] == ps[j + 1];
        }
      }
      RemoveIdKeepsUnique(ps[1..], id);
      if ps[0].id != id {
        var rest := RemoveId(ps[1..], id);
        forall j | 0 <= j < |rest| ensures rest[j].id != ps[0].id {
          assert rest[j] in rest;
          var k :| 0 <= k < |ps[1..]| && ps[1..][k] == rest[j];
          assert ps[k + 1] == rest[j];
        }
        assert RemoveId(ps, id) == [ps[0]] + rest;
      }
    }
  }

  /** Appending a record with a fresh id keeps ids unique and adds exactly
      that id. */
  lemma AppendFresh(ps: seq<PolygonData>, p: PolygonData)
    requires UniqueIds(ps) && !HasRecord(ps, p.id)
    ensures UniqueIds(ps + [p])
    ensures forall id :: HasRecord(ps + [p], id) <==> HasRecord(ps, id) || id == p.id
  {
  }
}
