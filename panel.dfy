/** The list panel's state: the pending-edit buffer, the highlight list and
    the style a highlight toggle applies, and the filter deciding which
    records are listed. */
module Panel {
  import opened Common
  import opened Surface
  import opened Registry

  /** A pending (not yet saved) edit of one shape's metadata. A field is
      `Undefined` when the entry was created by editing the other field. */
  datatype Pending = Pending(country: Text, price: Text)

  datatype Field = Country | Price

  /** The buffer after `handleInputChange`: the entry of the id is copied
      with one field overwritten. Only the named field of the named id changes; an id without an entry
      gets one whose other field is undefined. */
  function SetInput(buf: map<Id, Pending>, id: Id, field: Field, value: string): (r: map<Id, Pending>)
    ensures r.Keys == buf.Keys + {id}
    ensures forall k :: k in buf && k != id ==> r[k] == buf[k]
    ensures field == Country ==>
              r[id].country == Str(value) && r[id].price == (if id in buf then buf[id].price else Undefined)
    ensures field == Price ==>
              r[id].price == Str(value) && r[id].country == (if id in buf then buf[id].country else Undefined)
  {
    var prev := if id in buf then buf[id] else Pending(Undefined, Undefined);
    buf[id := match field
              case Country => prev.(country := Str(value))
              case Price => prev.(price := Str(value))]
  }

  /** The highlight list with every occurrence of the id filtered out. */
  function Without(ids: seq<Id>, id: Id): (r: seq<Id>)
    ensures forall x :: x in r <==> x in ids && x != id
    ensures id !in ids ==> r == ids
  {
    if ids == [] then []
    else if ids[0] == id then Without(ids[1..], id)
    else [ids[0]] + Without(ids[1..], id)
  }

  /** Removing the last-appended id undoes the append. */
  lemma {:induction false} WithoutAppended(ids: seq<Id>, id: Id)
    ensures Without(ids + [id], id) == Without(ids, id)
  {
    if ids != [] {
      assert (ids + [id])[1..] == ids[1..] + [id];
      WithoutAppended(ids[1..], id);
    }
  }

  /** The highlight list after `handleHighlightPolygon(id)`: the id leaves the
      list if it was in it, otherwise it is appended. */
  function Toggle(ids: seq<Id>, id: Id): (r: seq<Id>)
    ensures id in r <==> id !in ids
    ensures forall x :: x != id ==> (x in r <==> x in ids)
  {
    if id in ids then Without(ids, id) else ids + [id]
  }

  /** Highlighting and then un-highlighting an id gives back the very same
      list. */
  lemma ToggleOnOff(ids: seq<Id>, id: Id)
    requires id !in ids
    ensures Toggle(Toggle(ids, id), id) == ids
  {
    WithoutAppended(ids, id);
  }

  /** The style effect of `handleHighlightPolygon(id)` on the drawn layers:
      turning on paints the live layer red; turning off restores the
      record's `originalStyle` when both the layer and the record exist;
      otherwise no style is applied. */
  function Restyle(layers: map<Id, Layer>, ps: seq<PolygonData>, wasHighlighted: bool, id: Id): (r: map<Id, Layer>)
    ensures r.Keys == layers.Keys
    ensures forall k :: k in layers && k != id ==> r[k] == layers[k]
    ensures id in layers ==> r[id] == layers[id].(color := r[id].color)
    ensures id in layers && !wasHighlighted ==> r[id].color == Some(HighlightColour)
    ensures id in layers && wasHighlighted && HasRecord(ps, id) ==>
              r[id].color == Find(ps, id).value.originalStyle.color
    ensures wasHighlighted && !HasRecord(ps, id) ==> r == layers
  {
    if id !in layers then layers
    else if wasHighlighted then
      match Find(ps, id)
      case Some(p) => layers[id := layers[id].(color := p.originalStyle.color)]
      case None => layers
    else layers[id := layers[id].(color := Some(HighlightColour))]
  }

  /** Two toggles of a shape that was not highlighted give back the
      highlight list, and leave its layer in its original colour with every
      other layer untouched. */
  lemma HighlightRoundTrip(layers: map<Id, Layer>, ps: seq<PolygonData>, ids: seq<Id>, id: Id)
    requires id !in ids && id in layers && HasRecord(ps, id)
    ensures Toggle(Toggle(ids, id), id) == ids
    ensures var on := Restyle(layers, ps, id in ids, id);
            var off := Restyle(on, ps, id in Toggle(ids, id), id);
            off == layers[id := layers[id].(color := Find(ps, id).value.originalStyle.color)]
  {
    ToggleOnOff(ids, id);
  }

  /** The list panel's filter: neither country nor price is the empty
      string. An undefined field passes this test. */
  predicate Annotated(p: PolygonData) {
    p.country != Str("") && p.price != Str("")
  }

  /** The records the list panel shows, in registry order. */
  function Listed(ps: seq<PolygonData>): (r: seq<PolygonData>)
    ensures forall p :: p in r <==> p in ps && Annotated(p)
    ensures |r| <= |ps|
  {
    if ps == [] then []
    else if Annotated(ps[0]) then [ps[0]] + Listed(ps[1..])
    else Listed(ps[1..])
  }

  /** The list is stable: a record appended to the registry is listed after
      all earlier ones, and only if annotated. */
  lemma {:induction false} ListedAppend(ps: seq<PolygonData>, p: PolygonData)
    ensures Listed(ps + [p]) == Listed(ps) + (if Annotated(p) then [p] else [])
  {
    if ps != [] {
      assert (ps + [p])[1..] == ps[1..] + [p];
      ListedAppend(ps[1..], p);
    }
  }

  /** One row of the list panel. */
  datatype Row = Row(id: Id, area: string, country: Text, price: Text, highlighted: bool)

  /** A row shows, for each of country and price, the buffered value when it
      is truthy and the record's otherwise, and the highlight button state
      of the id. */
  function RowOf(p: PolygonData, buf: map<Id, Pending>, hl: seq<Id>): (r: Row)
    ensures r.id == p.id && r.area == p.area && r.highlighted == (p.id in hl)
    ensures p.id in buf && buf[p.id].country.Truthy() ==> r.country == buf[p.id].country
    ensures !(p.id in buf && buf[p.id].country.Truthy()) ==> r.country == p.country
    ensures p.id in buf && buf[p.id].price.Truthy() ==> r.price == buf[p.id].price
    ensures !(p.id in buf && buf[p.id].price.Truthy()) ==> r.price == p.price
  {
    var country := if p.id in buf && buf[p.id].country.Truthy() then buf[p.id].country else p.country;
    var price := if p.id in buf && buf[p.id].price.Truthy() then buf[p.id].price else p.price;
    Row(p.id, p.area, country, price, p.id in hl)
  }

  /** The rows of the list panel: one per listed record, in list order. */
  function Rows(ps: seq<PolygonData>, buf: map<Id, Pending>, hl: seq<Id>): (r: seq<Row>)
    ensures |r| == |Listed(ps)|
    ensures forall i :: 0 <= i < |r| ==> r[i].id == Listed(ps)[i].id && r[i].area == Listed(ps)[i].area
  {
    var l := Listed(ps);
    seq(|l|, i requires 0 <= i < |l| => RowOf(l[i], buf, hl))
  }

  /** Some row of the panel is for this id. */
  ghost predicate Shows(rows: seq<Row>, id: Id) {
    exists i :: 0 <= i < |rows| && rows[i].id == id
  }

  /** Some record with this id is annotated. */
  ghost predicate AnnotatedId(ps: seq<PolygonData>, id: Id) {
    exists p :: p in ps && p.id == id && Annotated(p)
  }

  /** The panel shows a row for an id exactly when a record with that id has
      both country and price set. */
  lemma RowsShowAnnotated(ps: seq<PolygonData>, buf: map<Id, Pending>, hl: seq<Id>, id: Id)
    ensures Shows(Rows(ps, buf, hl), id) <==> AnnotatedId(ps, id)
  {
  }

  /** A deleted shape never shows up in the list panel again. */
  lemma DeletedNotListed(ps: seq<PolygonData>, buf: map<Id, Pending>, hl: seq<Id>, id: Id)
    ensures !Shows(Rows(RemoveId(ps, id), buf, hl), id)
  {
  }
}
